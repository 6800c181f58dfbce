/**
 Delivery in traffic: the frames of many address pairs in any interleaving, with retransmitted segments
 among them. Each pair's messages come out as it sent them.
 */
module Dnp3Mixed {
  import opened Common
  import opened Provenance
  import opened Dnp3Model
  import opened Dnp3Transport
  import opened Dnp3Effects
  import opened Dnp3Delivery
  import opened Dnp3Messages
  import opened Dnp3Isolation

  // ---------------------------------------------------------------- steps that report nothing

  ghost predicate Quiet(w: Work, r: Result<Work>) {
    r.Ok? && r.value.out.issues == w.out.issues
  }

  /** At most two messages, the first of two unfinished. */
  ghost predicate FewMessages(w: Work, v: Work) {
    && |w.out.messages| <= |v.out.messages| <= |w.out.messages| + 2
    && (|v.out.messages| == |w.out.messages| + 2 ==> !v.out.messages[|w.out.messages|].complete)
  }

  lemma {:induction false} AddFew(w: Work, f: Fragment, d: bool, at: int, limits: Limits)
    ensures var r := AddFragment(w, f, d, at, limits);
            r.Ok? ==> FewMessages(w, r.value) && |r.value.out.fragments| == |w.out.fragments| + 1 && r.value.out.frames == w.out.frames
  {
    hide FramePackets, JoinMessage, EmitIfOpen;
    var p := FramePackets(w.out.frames, f.frames);
    AddIs(w, f, d, at, limits);
    var x := Announce(w, f, p, at, limits);
    if AddFragment(w, f, d, at, limits).Ok? {
      JoinFew(x.value, f, |w.out.fragments|, d, p, at, limits);
      var y := JoinMessage(x.value, f, |w.out.fragments|, AppKey(f.address, f.class_), d, p, at, limits).value;
      EmitFew(y, AppKey(f.address, f.class_), true, limits);
    }
  }

  /** At most one message, unfinished, and nothing else. */
  lemma {:induction false} JoinFew(w: Work, f: Fragment, id: nat, d: bool, p: set<PacketId>, at: int, limits: Limits)
    ensures var r := JoinMessage(w, f, id, AppKey(f.address, f.class_), d, p, at, limits);
            r.Ok? ==>
              && r.value.out.frames == w.out.frames && r.value.out.fragments == w.out.fragments
              && |w.out.messages| <= |r.value.out.messages| <= |w.out.messages| + 1
              && (|r.value.out.messages| == |w.out.messages| + 1 ==> !r.value.out.messages[|w.out.messages|].complete)
  {
    hide ExtendApp, Continues, OpenApp;
  }

  lemma {:induction false} EmitFew(w: Work, k: AppKey, complete: bool, limits: Limits)
    ensures var r := EmitIfOpen(w, k, complete, limits);
            r.Ok? ==>
              && r.value.out.frames == w.out.frames && r.value.out.fragments == w.out.fragments
              && |r.value.out.messages| <= |w.out.messages| + 1 && Extends(w.out.messages, r.value.out.messages)
  {
  }

  /** What a quiet segment does to its address's assembly, and how little it puts out. */
  ghost predicate QuietStep(w: Work, v: Work, f: Frame)
    requires f.userData.data != []
  {
    var a, data := f.address, f.userData.data;
    && FewMessages(w, v) && |v.out.fragments| <= |w.out.fragments| + 1
    && !DirectionDiffers(w, a, f.Forward())
    && (!Last(data[0]) ==>
          && a in v.transport && v.apps == w.apps
          && v.transport[a].lastSequence == Sequence(data[0]) && v.transport[a].direction == f.Forward()
          && (a !in w.transport ==> v.transport[a].seen == map[Sequence(data[0]) := data])
          && (a in w.transport ==>
                && Sequence(data[0]) == NextSegment(w.transport[a].lastSequence)
                && v.transport[a].seen == w.transport[a].seen[Sequence(data[0]) := data]))
  }

  lemma {:induction false} FinishQuiet(w: Work, t: Assembly, f: Frame, at: int, limits: Limits)
    requires f.userData.data != [] && Quiet(w, FinishSegment(w, t, f, at, limits))
    ensures var v := FinishSegment(w, t, f, at, limits).value;
            && FewMessages(w, v) && |v.out.fragments| <= |w.out.fragments| + 1 && v.out.frames == w.out.frames
            && (!Last(f.userData.data[0]) ==> v == w.(transport := w.transport[f.address := t]))
  {
    hide Drop, AddFragment, ParseFragment, Last, Packets, Discarded, FewMessages;
    FewNone(w);
    if Last(f.userData.data[0]) {
      var x := w.(transport := w.transport - {f.address});
      match ParseFragment(t, f.address) {
        case Err(_) => DropLoud(x, f.address, InvalidApplicationHeader, Packets(t.bytes), at, limits);
        case Ok(g) =>
          AddFew(x, g, f.Forward(), at, limits);
          FewAlike(w, x, FinishSegment(w, t, f, at, limits).value);
      }
    }
  }

  lemma {:induction false} FewNone(w: Work)
    ensures forall v: Work | v.out == w.out :: FewMessages(w, v)
  {
  }

  lemma {:induction false} FewAlike(w: Work, x: Work, v: Work)
    requires x.out == w.out && FewMessages(x, v)
    ensures FewMessages(w, v)
  {
  }

  /** Dropping is never quiet. */
  lemma {:induction false} DropLoud(w: Work, a: Address, code: IssueCode, packets: set<PacketId>, at: int, limits: Limits)
    ensures !Quiet(w, Drop(w, a, code, packets, at, limits))
    ensures Drop(w, a, code, packets, at, limits).Ok? ==> |Drop(w, a, code, packets, at, limits).value.out.issues| > |w.out.issues|
  {
    hide Drop, KeysOf, ClosingAll;
    DropDiscards(w, a, code, packets, at, limits);
  }

  lemma {:induction false} RepeatLoud(w: Work, f: Frame, id: nat, at: int, limits: Limits)
    requires f.address in w.transport && f.userData.data != []
    ensures !Quiet(w, RepeatSegment(w, f, id, at, limits))
  {
    hide Packets;
  }

  lemma {:induction false} ExtendSeen(t: Assembly, data: Evidence, id: nat, limits: Limits)
    requires data.data != [] && ExtendAssembly(t, data, id, limits).Ok?
    ensures var r, s := ExtendAssembly(t, data, id, limits).value, Sequence(data.data[0]);
            r.seen == t.seen[s := data.data] && r.lastSequence == s && r.direction == t.direction
  {
    hide SliceSpans, AppendSpans;
  }

  lemma {:induction false} OpenSeen(data: Evidence, id: nat, d: bool, limits: Limits)
    requires data.data != [] && OpenAssembly(data, id, d, limits).Ok?
    ensures var r, s := OpenAssembly(data, id, d, limits).value, Sequence(data.data[0]);
            r.seen == map[s := data.data] && r.lastSequence == s && r.direction == d
  {
    hide SliceSpans;
  }

  /** A segment that reports nothing began an assembly where none was open, or was the next of the open one. */
  lemma {:induction false} SegmentQuiet(w: Work, f: Frame, id: nat, at: int, limits: Limits)
    requires f.userData.data != [] && !DirectionDiffers(w, f.address, f.Forward()) && Quiet(w, Segment(w, f, id, at, limits))
    ensures QuietStep(w, Segment(w, f, id, at, limits).value, f) && Segment(w, f, id, at, limits).value.out.frames == w.out.frames
  {
    hide DirectionDiffers, Drop, RepeatSegment, OpenAssembly, ExtendAssembly, FinishSegment, Packets, First, Last, FewMessages, Sequence, NextSegment;
    var a, data := f.address, f.userData.data;
    var open := a in w.transport;
    if open && Seen(w.transport[a], data) && w.transport[a].seen[Sequence(data[0])] == data {
      RepeatLoud(w, f, id, at, limits);
    } else if open && !First(data[0]) && Seen(w.transport[a], data) {
      DropLoud(w, a, ConflictingDuplicate, Packets(w.transport[a].bytes) + Packets(f.userData), at, limits);
    } else if First(data[0]) {
      if open {
        RestartLoud(w, f, id, at, limits);
      } else {
        OpenSeen(f.userData, id, f.Forward(), limits);
        FinishQuiet(w, OpenAssembly(f.userData, id, f.Forward(), limits).value, f, at, limits);
      }
    } else if !open {
      DropLoud(w, a, OrphanSegment, Packets(f.userData), at, limits);
    } else if Sequence(data[0]) != NextSegment(w.transport[a].lastSequence) {
      DropLoud(w, a, SegmentGap, Packets(w.transport[a].bytes) + Packets(f.userData), at, limits);
    } else {
      ExtendSeen(w.transport[a], f.userData, id, limits);
      FinishQuiet(w, ExtendAssembly(w.transport[a], f.userData, id, limits).value, f, at, limits);
      SameWay(w, a, f.Forward());
    }
  }

  lemma {:induction false} SameWay(w: Work, a: Address, d: bool)
    requires !DirectionDiffers(w, a, d) && a in w.transport
    ensures w.transport[a].direction == d
  {
  }

  lemma {:induction false} RestartLoud(w: Work, f: Frame, id: nat, at: int, limits: Limits)
    requires f.userData.data != [] && f.address in w.transport
    ensures !Quiet(w, BeginSegment(w, f, id, at, limits))
  {
    hide Drop, OpenAssembly, FinishSegment, Packets, Grew;
    var dropped := Drop(w, f.address, RestartBeforeFin, Packets(w.transport[f.address].bytes), at, limits);
    DropLoud(w, f.address, RestartBeforeFin, Packets(w.transport[f.address].bytes), at, limits);
    var t := OpenAssembly(f.userData, id, f.Forward(), limits);
    if dropped.Ok? && t.Ok? {
      FinishGrew(dropped.value, t.value, f, at, limits);
      GrewIssues(dropped.value, FinishSegment(dropped.value, t.value, f, at, limits));
    }
  }

  lemma {:induction false} GrewIssues(w: Work, r: Result<Work>)
    requires r.Ok? ==> Grew(w, r.value)
    ensures r.Ok? ==> |w.out.issues| <= |r.value.out.issues|
  {
  }

  /** A frame with user data that breaks no link rule. */
  ghost predicate Usable(f: Frame, rules: LinkRules) {
    && f.CarriesUserData() && f.userData.data != []
    && rules(f.control, f.address.source, f.address.destination, |f.userData.data|) == None
  }

  /** Up to the push, a usable frame is its segment, if the direction is that of what is open. */
  lemma {:induction false} UsableSegment(w: Work, f: Frame, at: int, limits: Limits, rules: LinkRules)
    requires Usable(f, rules) && |w.out.frames| < limits.maxProtocolMessages
    ensures var x := PushFrame(w, f);
            AcceptFrame(w, f, at, limits, rules)
            == (match if DirectionDiffers(x, f.address, f.Forward()) then Drop(x, f.address, DirectionChanged, Packets(f.userData), at, limits) else Ok(x)
                case Err(e) => Err(e)
                case Ok(y) => Segment(y, f, |w.out.frames|, at, limits))
  {
    hide Segment, Packets, Report, Drop, DirectionDiffers;
  }

  lemma {:induction false} PushDirection(w: Work, f: Frame, a: Address, d: bool)
    ensures DirectionDiffers(PushFrame(w, f), a, d) <==> DirectionDiffers(w, a, d)
  {
  }

  lemma {:induction false} AcceptQuiet(w: Work, f: Frame, at: int, limits: Limits, rules: LinkRules)
    requires Usable(f, rules) && Quiet(w, AcceptFrame(w, f, at, limits, rules))
    ensures f.userData.data != [] && QuietStep(w, AcceptFrame(w, f, at, limits, rules).value, f)
    ensures |AcceptFrame(w, f, at, limits, rules).value.out.frames| == |w.out.frames| + 1
  {
    hide AcceptFrame, DirectionDiffers, Drop, Segment, Packets, Grew;
    AcceptRoom(w, f, at, limits, rules);
    UsableSegment(w, f, at, limits, rules);
    PushDirection(w, f, f.address, f.Forward());
    var x := PushFrame(w, f);
    if DirectionDiffers(x, f.address, f.Forward()) {
      DropLoud(x, f.address, DirectionChanged, Packets(f.userData), at, limits);
      var dropped := Drop(x, f.address, DirectionChanged, Packets(f.userData), at, limits);
      if dropped.Ok? {
        SegmentGrew(dropped.value, f, |w.out.frames|, at, limits);
        GrewIssues(dropped.value, Segment(dropped.value, f, |w.out.frames|, at, limits));
      }
    } else {
      SegmentQuiet(x, f, |w.out.frames|, at, limits);
    }
  }

  // ---------------------------------------------------------------- retransmissions

  /** The same segment again, wherever it stands in the capture. */
  ghost predicate Copies(f: Frame, g: Frame) {
    f.control == g.control && f.address == g.address && f.userData.data == g.userData.data
  }

  ghost predicate AllUsable(h: seq<Frame>, a: Address, rules: LinkRules) {
    forall i | 0 <= i < |h| :: h[i].address == a && Usable(h[i], rules)
  }

  /** None of the frames from m on is the last of its fragment. */
  ghost predicate NoneLast(h: seq<Frame>, m: nat, k: nat)
    requires k <= |h|
  {
    forall i | m <= i < k :: h[i].userData.data != [] && !Last(h[i].userData.data[0])
  }

  /** A segment that repeats one of the last 63 of the fragment still open. */
  ghost predicate Echoes(f: Frame, h: seq<Frame>) {
    exists m: nat :: m < |h| && |h| - m <= 63 && NoneLast(h, m, |h|) && Copies(f, h[m])
  }

  /** What the open assembly remembers of segment m. */
  ghost predicate Remembers(t: Assembly, h: seq<Frame>, m: nat, k: nat)
    requires m < k <= |h| && h[m].userData.data != []
  {
    var s := Sequence(h[m].userData.data[0]);
    && (s + (k - 1 - m)) % 64 == t.lastSequence
    && (k - m <= 64 ==> s in t.seen && t.seen[s] == h[m].userData.data)
  }

  /** Behind frame k a fragment is open and its segments are remembered. */
  ghost predicate Open(v: Work, h: seq<Frame>, a: Address, k: nat)
    requires 0 < k <= |h|
  {
    && a in v.transport && v.transport[a].direction == h[k - 1].Forward() && !DirectionDiffers(v, a, h[k - 1].Forward())
    && (forall m: nat | m < k && NoneLast(h, m, k) :: Remembers(v.transport[a], h, m, k) && h[m].Forward() == h[k - 1].Forward())
  }

  lemma {:induction false} Wraps(s: nat, n: nat)
    requires s < 64 && 0 < n <= 63
    ensures (s + n) % 64 != s
  {
  }

  lemma {:induction false} NextWraps(s: nat, n: nat)
    requires s < 64
    ensures NextSegment((s + n) % 64) == (s + n + 1) % 64
  {
  }

  lemma {:induction false} RemembersMore(t: Assembly, u: Assembly, h: seq<Frame>, m: nat, k: nat)
    requires m < k < |h| && h[m].userData.data != [] && h[k].userData.data != [] && Remembers(t, h, m, k)
    requires var s := Sequence(h[k].userData.data[0]);
             s == NextSegment(t.lastSequence) && u.seen == t.seen[s := h[k].userData.data] && u.lastSequence == s
    ensures Remembers(u, h, m, k + 1)
  {
    hide NextSegment;
    var s := Sequence(h[m].userData.data[0]);
    NextWraps(s, k - 1 - m);
    if k - m <= 63 {
      Wraps(s, k - m);
    }
  }

  lemma {:induction false} OpenStep(v: Work, u: Work, h: seq<Frame>, a: Address, k: nat)
    requires k < |h| && h[k].address == a && h[k].userData.data != [] && QuietStep(v, u, h[k]) && !Last(h[k].userData.data[0])
    requires k > 0 && h[k - 1].userData.data != [] && !Last(h[k - 1].userData.data[0]) ==> Open(v, h, a, k)
    ensures Open(u, h, a, k + 1)
  {
    hide Last, FewMessages, Sequence, NextSegment, Remembers;
    var t, n := u.transport[a], k + 1;
    forall m: nat | m < n && NoneLast(h, m, n) ensures Remembers(t, h, m, n) && h[m].Forward() == h[k].Forward() {
      if m < k {
        assert NoneLast(h, m, k);
        assert h[k - 1].userData.data != [] && !Last(h[k - 1].userData.data[0]);
        SameWay(v, a, h[k].Forward());
        RemembersMore(v.transport[a], t, h, m, k);
      } else {
        RemembersLast(t, h, k);
      }
    }
    OpenWay(v, u, a, h[k].Forward());
  }

  lemma {:induction false} RemembersLast(t: Assembly, h: seq<Frame>, k: nat)
    requires k < |h| && h[k].userData.data != []
    requires var s := Sequence(h[k].userData.data[0]);
             s in t.seen && t.seen[s] == h[k].userData.data && t.lastSequence == s
    ensures Remembers(t, h, k, k + 1)
  {
  }

  lemma {:induction false} OpenWay(v: Work, u: Work, a: Address, d: bool)
    requires !DirectionDiffers(v, a, d) && u.apps == v.apps && a in u.transport && u.transport[a].direction == d
    ensures !DirectionDiffers(u, a, d)
  {
  }

  /** In a quiet run of usable frames, whatever fragment is open is remembered segment by segment. */
  lemma {:induction false} RunOpen(h: seq<Frame>, a: Address, base: int, limits: Limits, rules: LinkRules, k: nat)
    requires 0 < k <= |h| && AllUsable(h, a, rules) && !Last(h[k - 1].userData.data[0])
    requires AcceptAll(FRESH, h, base, limits, rules, k).Ok? && AcceptAll(FRESH, h, base, limits, rules, k).value.out.issues == []
    ensures Open(AcceptAll(FRESH, h, base, limits, rules, k).value, h, a, k)
  {
    hide AcceptFrame, Last, Open, QuietStep, Grew;
    var v := AcceptAll(FRESH, h, base, limits, rules, k - 1).value;
    var f := h[k - 1];
    assert Usable(f, rules);
    AcceptGrew(v, f, base + f.start, limits, rules);
    GrewIssues(v, AcceptFrame(v, f, base + f.start, limits, rules));
    AcceptQuiet(v, f, base + f.start, limits, rules);
    if k > 1 && h[k - 2].userData.data != [] && !Last(h[k - 2].userData.data[0]) {
      assert Usable(h[k - 2], rules);
      RunOpen(h, a, base, limits, rules, k - 1);
    }
    OpenStep(v, AcceptAll(FRESH, h, base, limits, rules, k).value, h, a, k - 1);
  }

  lemma {:induction false} AcceptGrew(w: Work, f: Frame, at: int, limits: Limits, rules: LinkRules)
    ensures AcceptFrame(w, f, at, limits, rules).Ok? ==> Grew(w, AcceptFrame(w, f, at, limits, rules).value)
  {
    hide AcceptFrame, Confined;
    AcceptConfined(w, f, at, limits, rules);
    if AcceptFrame(w, f, at, limits, rules).Ok? {
      ConfinedGrew(w, AcceptFrame(w, f, at, limits, rules).value, f.address);
    }
  }

  lemma {:induction false} RepeatAlike(w: Work, v: Work, f: Frame, id: nat)
    requires Alike(w, v, f.address) && f.address in w.transport
    ensures var x, t := PushFrame(w, f), w.transport[f.address];
            && |t.frames| <= |w.out.frames|
            && Alike(x.(transport := x.transport[f.address := t.(frames := t.frames + [id])]), v, f.address)
  {
    hide FragmentsOf, MessagesOf, Keyed, SameApp;
    var t := w.transport[f.address];
    assert BareAssembly(t.(frames := t.frames + [id])) == BareAssembly(t);
  }

  /** Two states that differ in issues only look alike to the same states. */
  lemma {:induction false} IssuesAlike(w: Work, u: Work, v: Work, a: Address)
    requires Alike(w, v, a) && u == w.(out := w.out.(issues := u.out.issues))
    ensures Alike(u, v, a)
  {
    hide FragmentsOf, MessagesOf, Keyed, SameApp;
  }

  /** Accepting an echo reports it and changes nothing that the address pair can see. */
  lemma {:induction false} EchoAccepted(w: Work, v: Work, f: Frame, at: int, limits: Limits, rules: LinkRules)
    requires Alike(w, v, f.address) && Usable(f, rules) && f.address in w.transport && !DirectionDiffers(w, f.address, f.Forward())
    requires var t, s := w.transport[f.address], Sequence(f.userData.data[0]);
             s != NextSegment(t.lastSequence) && s in t.seen && t.seen[s] == f.userData.data
    requires |w.out.frames| < limits.maxProtocolMessages && |w.out.issues| < limits.maxProtocolMessages
    ensures var r := AcceptFrame(w, f, at, limits, rules);
            && r.Ok? && Alike(r.value, v, f.address)
            && |r.value.out.frames| == |w.out.frames| + 1 && r.value.out.fragments == w.out.fragments
            && r.value.out.messages == w.out.messages && |r.value.out.issues| == |w.out.issues| + 1
            && r.value.out.rejected == w.out.rejected
  {
    hide Alike, DirectionDiffers, Drop, BeginSegment, ExtendAssembly, FinishSegment, Packets, AcceptFrame, Sequence, NextSegment;
    UsableSegment(w, f, at, limits, rules);
    PushDirection(w, f, f.address, f.Forward());
    var x, a, id := PushFrame(w, f), f.address, |w.out.frames|;
    RepeatAlike(w, v, f, id);
    var y := x.(transport := x.transport[a := x.transport[a].(frames := x.transport[a].frames + [id])]);
    IssuesAlike(y, AcceptFrame(w, f, at, limits, rules).value, v, a);
  }

  // ---------------------------------------------------------------- traffic

  /** Frames of any address pairs in any order, which of them are echoes, and what each pair sent. */
  datatype Mix = Mix(frames: seq<Frame>, echo: seq<bool>, sent: map<Address, seq<Sending>>)

  /** The address pair's own frames among the first k, without the echoes. */
  function Heard(m: Mix, a: Address, k: nat): seq<Frame>
    requires k <= |m.frames| == |m.echo|
  {
    if k == 0 then []
    else Heard(m, a, k - 1) + if m.frames[k - 1].address == a && !m.echo[k - 1] then [m.frames[k - 1]] else []
  }

  function Sent(m: Mix, a: Address): seq<Sending> {
    if a in m.sent then m.sent[a] else []
  }

  function Wire(m: Mix, a: Address): seq<Frame> {
    OnWire(Sent(m, a), |Sent(m, a)|)
  }

  function EchoCount(m: Mix, k: nat): nat
    requires k <= |m.echo|
  {
    if k == 0 then 0 else EchoCount(m, k - 1) + if m.echo[k - 1] then 1 else 0
  }

  ghost predicate KeyedBy(ss: seq<Sending>, a: Address) {
    forall i | 0 <= i < |ss| :: ss[i].key.address == a
  }

  /** What an address pair was heard to send, echoes aside, is its messages one after another. */
  ghost predicate PairOk(m: Mix, a: Address, limits: Limits, rules: LinkRules)
    requires |m.frames| == |m.echo|
  {
    Heard(m, a, |m.frames|) == Wire(m, a) && AllSound(Sent(m, a), limits, rules) && KeyedBy(Sent(m, a), a)
  }

  ghost predicate EchoAt(m: Mix, k: nat)
    requires k < |m.frames| == |m.echo|
  {
    m.echo[k] ==> Echoes(m.frames[k], Heard(m, m.frames[k].address, k))
  }

  /** Traffic within the budgets: only its own messages and their echoes. */
  ghost predicate Traffic(m: Mix, limits: Limits, rules: LinkRules) {
    && |m.frames| == |m.echo| && |m.frames| <= limits.maxProtocolMessages
    && (forall a: Address :: PairOk(m, a, limits, rules))
    && (forall k: nat | k < |m.frames| :: EchoAt(m, k))
  }

  lemma {:induction false} HeardFew(m: Mix, a: Address, k: nat)
    requires k <= |m.frames| == |m.echo|
    ensures |Heard(m, a, k)| <= k
  {
    if k > 0 {
      HeardFew(m, a, k - 1);
    }
  }

  lemma {:induction false} HeardFront(m: Mix, a: Address, j: nat, k: nat)
    requires j <= k <= |m.frames| == |m.echo|
    ensures |Heard(m, a, j)| <= |Heard(m, a, k)| && Heard(m, a, k)[..|Heard(m, a, j)|] == Heard(m, a, j)
  {
    if j < k {
      HeardFront(m, a, j, k - 1);
      var before := Heard(m, a, k - 1);
      assert Heard(m, a, k)[..|before|] == before;
      assert Heard(m, a, k)[..|Heard(m, a, j)|] == before[..|Heard(m, a, j)|];
    }
  }

  lemma {:induction false} FlatFacts(ts: seq<seq<Frame>>, key: AppKey, d: bool, rules: LinkRules, k: nat)
    requires AllParts(ts, key, d, rules) && k <= |ts|
    ensures |Flat(ts, k)| >= k && AllUsable(Flat(ts, k), key.address, rules)
  {
    hide Part, Usable;
    if k > 0 {
      FlatFacts(ts, key, d, rules, k - 1);
      var fs := ts[k - 1];
      PartTrain(fs, key, d, rules);
      TrainUsable(fs, key.address, d, rules);
    }
  }

  lemma {:induction false} TrainUsable(fs: seq<Frame>, a: Address, d: bool, rules: LinkRules)
    requires Train(fs, a, d, rules)
    ensures |fs| >= 1 && AllUsable(fs, a, rules)
  {
    hide Canonical;
  }

  lemma {:induction false} WireFacts(ss: seq<Sending>, a: Address, limits: Limits, rules: LinkRules, k: nat)
    requires AllSound(ss, limits, rules) && KeyedBy(ss, a) && k <= |ss|
    ensures k <= Fragments(ss, k) <= |OnWire(ss, k)| && AllUsable(OnWire(ss, k), a, rules)
  {
    hide Usable, Flat, Nonempty, Headed, Fit;
    if k > 0 {
      WireFacts(ss, a, limits, rules, k - 1);
      var s := ss[k - 1];
      assert Sound(s, limits, rules) && s.key.address == a;
      FlatFacts(s.trains, s.key, s.direction, rules, |s.trains|);
    }
  }

  /** Nothing was reported, and every message put out is complete. */
  ghost predicate Clean(v: Work) {
    v.out.issues == [] && v.out.rejected == [] && forall i | 0 <= i < |v.out.messages| :: v.out.messages[i].complete
  }

  lemma {:induction false} CleanBefore(v: Work, u: Work, a: Address)
    requires Confined(v, u, a) && Clean(u)
    ensures Clean(v)
  {
    hide Keyed, NewOf, KeysOf;
    forall i | 0 <= i < |v.out.messages| ensures v.out.messages[i].complete {
      assert u.out.messages[..|v.out.messages|][i] == u.out.messages[i];
    }
  }

  lemma {:induction false} WireEnds(m: Mix, a: Address, base: int, limits: Limits, rules: LinkRules)
    requires Traffic(m, limits, rules)
    ensures var r := AcceptAll(FRESH, Wire(m, a), base, limits, rules, |Wire(m, a)|);
            r.Ok? && Clean(r.value) && Settled(r.value, Sent(m, a), |Sent(m, a)|)
  {
    hide AcceptAll, OnWire, AllSound, Heard, AllUsable;
    var ss := Sent(m, a);
    assert PairOk(m, a, limits, rules);
    HeardFew(m, a, |m.frames|);
    WireFacts(ss, a, limits, rules, |ss|);
    AllDelivered(ss, base, limits, rules, |ss|);
    SettledClean(AcceptAll(FRESH, Wire(m, a), base, limits, rules, |Wire(m, a)|).value, ss);
  }

  lemma {:induction false} SettledClean(v: Work, ss: seq<Sending>)
    requires Settled(v, ss, |ss|)
    ensures Clean(v)
  {
    hide Nonempty, OnWire;
    forall i | 0 <= i < |v.out.messages| ensures v.out.messages[i].complete {
      assert ToldAs(v.out.messages[i], ss[i], Fragments(ss, i));
    }
  }

  /** The pair's messages alone are accepted frame by frame, and nothing is ever reported. */
  lemma {:induction false} CleanRun(m: Mix, a: Address, base: int, limits: Limits, rules: LinkRules, n: nat)
    requires Traffic(m, limits, rules) && n <= |Wire(m, a)|
    ensures AcceptAll(FRESH, Wire(m, a), base, limits, rules, n).Ok?
    ensures Clean(AcceptAll(FRESH, Wire(m, a), base, limits, rules, n).value)
    decreases |Wire(m, a)| - n
  {
    hide AcceptFrame, Clean, Confined, Traffic, Settled;
    if n == |Wire(m, a)| {
      WireEnds(m, a, base, limits, rules);
    } else {
      CleanRun(m, a, base, limits, rules, n + 1);
      var v, f := AcceptAll(FRESH, Wire(m, a), base, limits, rules, n).value, Wire(m, a)[n];
      AcceptConfined(v, f, base + f.start, limits, rules);
      CleanBefore(v, AcceptFrame(v, f, base + f.start, limits, rules).value, f.address);
    }
  }

  lemma {:induction false} WireUsable(m: Mix, a: Address, limits: Limits, rules: LinkRules)
    requires Traffic(m, limits, rules)
    ensures AllUsable(Wire(m, a), a, rules)
  {
    hide OnWire, AllSound, Heard, AllUsable;
    assert PairOk(m, a, limits, rules);
    WireFacts(Sent(m, a), a, limits, rules, |Sent(m, a)|);
  }

  /** The run of the pair's own frames without echoes, as far as frame k. */
  function Alone(m: Mix, a: Address, base: int, limits: Limits, rules: LinkRules, k: nat): Result<Work>
    requires k <= |m.frames| == |m.echo|
  {
    AcceptAll(FRESH, Heard(m, a, k), base, limits, rules, |Heard(m, a, k)|)
  }

  lemma {:induction false} AloneClean(m: Mix, a: Address, base: int, limits: Limits, rules: LinkRules, k: nat)
    requires Traffic(m, limits, rules) && k <= |m.frames|
    ensures var r := Alone(m, a, base, limits, rules, k);
            r.Ok? && Clean(r.value) && AllUsable(Heard(m, a, k), a, rules)
  {
    hide AcceptAll, OnWire, Clean, Usable;
    var h, w := Heard(m, a, k), Wire(m, a);
    HeardIsFront(m, a, limits, rules, k);
    WireUsable(m, a, limits, rules);
    assert w == h + w[|h|..];
    AcceptFront(FRESH, h, w[|h|..], base, limits, rules, |h|);
    CleanRun(m, a, base, limits, rules, |h|);
    forall i | 0 <= i < |h| ensures h[i].address == a && Usable(h[i], rules) {
      assert h[i] == w[i];
    }
  }

  lemma {:induction false} HeardIsFront(m: Mix, a: Address, limits: Limits, rules: LinkRules, k: nat)
    requires Traffic(m, limits, rules) && k <= |m.frames|
    ensures |Heard(m, a, k)| <= |Wire(m, a)| && Wire(m, a)[..|Heard(m, a, k)|] == Heard(m, a, k)
  {
    hide OnWire, AllSound, Heard;
    assert PairOk(m, a, limits, rules);
    HeardFront(m, a, k, |m.frames|);
  }

  // ---------------------------------------------------------------- the run of the traffic

  /** To this address pair the traffic so far looks like its own frames alone. */
  ghost predicate InTouch(w: Work, m: Mix, a: Address, base: int, limits: Limits, rules: LinkRules, k: nat)
    requires k <= |m.frames| == |m.echo|
  {
    Alone(m, a, base, limits, rules, k).Ok? && Alike(w, Alone(m, a, base, limits, rules, k).value, a)
  }

  /** One frame, at most one fragment, one message or one report at a time. */
  ghost predicate Counted(w: Work, m: Mix, k: nat)
    requires k <= |m.frames| == |m.echo|
  {
    && |w.out.frames| == k && |w.out.fragments| <= k && |w.out.messages| <= k && |w.out.issues| == EchoCount(m, k) <= k
    && w.out.rejected == []
  }

  lemma {:induction false} HeardStep(m: Mix, a: Address, k: nat)
    requires k < |m.frames| == |m.echo|
    ensures Heard(m, a, k + 1) == Heard(m, a, k) + if m.frames[k].address == a && !m.echo[k] then [m.frames[k]] else []
  {
  }

  lemma {:induction false} CountStep(m: Mix, k: nat)
    requires k < |m.echo|
    ensures EchoCount(m, k + 1) == EchoCount(m, k) + if m.echo[k] then 1 else 0
  {
  }

  /** An echo of what is open is a repeat, in the pair's own run. */
  lemma {:induction false} EchoKnown(m: Mix, base: int, limits: Limits, rules: LinkRules, k: nat)
    requires Traffic(m, limits, rules) && k < |m.frames| && m.echo[k]
    ensures var f := m.frames[k];
            var r := Alone(m, f.address, base, limits, rules, k);
            && Usable(f, rules) && r.Ok? && f.address in r.value.transport && !DirectionDiffers(r.value, f.address, f.Forward())
            && var t, s := r.value.transport[f.address], Sequence(f.userData.data[0]);
               s != NextSegment(t.lastSequence) && s in t.seen && t.seen[s] == f.userData.data
  {
    hide AcceptAll, Heard, PairOk, DirectionDiffers, Last, Usable, Sequence, NextSegment;
    var f := m.frames[k];
    var h := Heard(m, f.address, k);
    AloneClean(m, f.address, base, limits, rules, k);
    assert EchoAt(m, k);
    var n: nat :| n < |h| && |h| - n <= 63 && NoneLast(h, n, |h|) && Copies(f, h[n]);
    assert Usable(h[n], rules);
    UsableCopy(f, h[n], rules);
    RunOpen(h, f.address, base, limits, rules, |h|);
    RememberedRepeats(Alone(m, f.address, base, limits, rules, k).value.transport[f.address], h, n);
  }

  lemma {:induction false} UsableCopy(f: Frame, g: Frame, rules: LinkRules)
    requires Copies(f, g) && Usable(g, rules)
    ensures Usable(f, rules) && f.Forward() == g.Forward()
  {
  }

  lemma {:induction false} RememberedRepeats(t: Assembly, h: seq<Frame>, n: nat)
    requires n < |h| && |h| - n <= 63 && h[n].userData.data != [] && Remembers(t, h, n, |h|)
    ensures var s := Sequence(h[n].userData.data[0]);
            s != NextSegment(t.lastSequence) && s in t.seen && t.seen[s] == h[n].userData.data
  {
    hide NextSegment;
    var s := Sequence(h[n].userData.data[0]);
    NextWraps(s, |h| - 1 - n);
    Wraps(s, |h| - n);
  }

  /** A clean frame of the pair's own run puts out at most one fragment and one message. */
  lemma {:induction false} OwnStep(m: Mix, base: int, limits: Limits, rules: LinkRules, k: nat)
    requires Traffic(m, limits, rules) && k < |m.frames| && !m.echo[k]
    ensures var f := m.frames[k];
            var v, u := Alone(m, f.address, base, limits, rules, k), Alone(m, f.address, base, limits, rules, k + 1);
            && v.Ok? && u.Ok? && u == AcceptFrame(v.value, f, base + f.start, limits, rules)
            && |u.value.out.fragments| <= |v.value.out.fragments| + 1 && |u.value.out.messages| <= |v.value.out.messages| + 1
            && u.value.out.issues == v.value.out.issues == [] && |u.value.out.frames| == |v.value.out.frames| + 1
  {
    hide AcceptAll, Heard, AcceptFrame, PairOk, EchoAt, Usable, Last, DirectionDiffers;
    var f := m.frames[k];
    AloneClean(m, f.address, base, limits, rules, k);
    AloneClean(m, f.address, base, limits, rules, k + 1);
    HeardStep(m, f.address, k);
    AcceptSnoc(FRESH, Heard(m, f.address, k), f, base, limits, rules);
    var v := Alone(m, f.address, base, limits, rules, k).value;
    var own := Heard(m, f.address, k + 1);
    assert own[|own| - 1] == f;
    AcceptQuiet(v, f, base + f.start, limits, rules);
  }

  lemma {:induction false} OthersInTouch(w: Work, u: Work, m: Mix, a: Address, base: int, limits: Limits, rules: LinkRules, k: nat)
    requires k < |m.frames| == |m.echo| && InTouch(w, m, a, base, limits, rules, k) && Confined(w, u, m.frames[k].address)
    requires m.frames[k].address != a
    ensures InTouch(u, m, a, base, limits, rules, k + 1)
  {
    hide AcceptAll, Heard, Alike, Confined;
    HeardStep(m, a, k);
    assert Heard(m, a, k) + [] == Heard(m, a, k);
    OtherAlike(w, u, Alone(m, a, base, limits, rules, k).value, a, m.frames[k].address);
  }

  lemma {:induction false} EchoStep(w: Work, m: Mix, base: int, limits: Limits, rules: LinkRules, k: nat)
    requires Traffic(m, limits, rules) && k < |m.frames| && m.echo[k] && Counted(w, m, k)
    requires InTouch(w, m, m.frames[k].address, base, limits, rules, k)
    ensures var r := AcceptFrame(w, m.frames[k], base + m.frames[k].start, limits, rules);
            r.Ok? && Counted(r.value, m, k + 1) && InTouch(r.value, m, m.frames[k].address, base, limits, rules, k + 1)
  {
    hide AcceptAll, Heard, Alike, AcceptFrame, DirectionDiffers, Usable, Sequence, NextSegment, PairOk, EchoAt;
    var f := m.frames[k];
    var v := Alone(m, f.address, base, limits, rules, k).value;
    EchoKnown(m, base, limits, rules, k);
    AssemblyFields(w, v, f.address);
    DirectionSame(w, v, f.address, f.Forward());
    HeardStep(m, f.address, k);
    assert Heard(m, f.address, k) + [] == Heard(m, f.address, k);
    CountStep(m, k);
    EchoAccepted(w, v, f, base + f.start, limits, rules);
  }

  lemma {:induction false} OwnFits(w: Work, v: Work, u: Work, m: Mix, limits: Limits, k: nat)
    requires k < |m.frames| == |m.echo| && |m.frames| <= limits.maxProtocolMessages && Counted(w, m, k)
    requires |u.out.fragments| <= |v.out.fragments| + 1 && |u.out.messages| <= |v.out.messages| + 1 && u.out.issues == v.out.issues
    ensures Fits(w, v, u, limits)
  {
  }

  lemma {:induction false} CleanStep(w: Work, m: Mix, base: int, limits: Limits, rules: LinkRules, k: nat)
    requires Traffic(m, limits, rules) && k < |m.frames| && !m.echo[k] && Counted(w, m, k)
    requires InTouch(w, m, m.frames[k].address, base, limits, rules, k)
    ensures var r := AcceptFrame(w, m.frames[k], base + m.frames[k].start, limits, rules);
            r.Ok? && Counted(r.value, m, k + 1) && InTouch(r.value, m, m.frames[k].address, base, limits, rules, k + 1)
  {
    hide AcceptAll, Heard, Alike, AcceptFrame, PairOk, EchoAt, Confined, Fits;
    var f := m.frames[k];
    OwnStep(m, base, limits, rules, k);
    var v, u := Alone(m, f.address, base, limits, rules, k).value, Alone(m, f.address, base, limits, rules, k + 1).value;
    OwnFits(w, v, u, m, limits, k);
    AcceptInStep(w, v, limits, f, base + f.start, rules);
    AcceptConfined(w, f, base + f.start, limits, rules);
    RejectedKept(w, AcceptFrame(w, f, base + f.start, limits, rules).value, f.address);
    CountStep(m, k);
  }

  lemma {:induction false} RejectedKept(w: Work, v: Work, a: Address)
    requires Confined(w, v, a)
    ensures v.out.rejected == w.out.rejected
  {
    hide Keyed, NewOf, KeysOf;
  }

  /** After k frames of the traffic every address pair is in touch with its own run. */
  lemma {:induction false} TrafficRuns(m: Mix, base: int, limits: Limits, rules: LinkRules, k: nat)
    requires Traffic(m, limits, rules) && k <= |m.frames|
    ensures var r := AcceptAll(FRESH, m.frames, base, limits, rules, k);
            && r.Ok? && Counted(r.value, m, k)
            && forall a: Address :: InTouch(r.value, m, a, base, limits, rules, k)
  {
    hide AcceptFrame, Counted, InTouch, Confined, PairOk, EchoAt;
    if k == 0 {
      TrafficBegins(m, base, limits, rules);
    } else {
      TrafficRuns(m, base, limits, rules, k - 1);
      var w, f := AcceptAll(FRESH, m.frames, base, limits, rules, k - 1).value, m.frames[k - 1];
      assert InTouch(w, m, f.address, base, limits, rules, k - 1);
      if m.echo[k - 1] {
        EchoStep(w, m, base, limits, rules, k - 1);
      } else {
        CleanStep(w, m, base, limits, rules, k - 1);
      }
      AcceptConfined(w, f, base + f.start, limits, rules);
      var u := AcceptFrame(w, f, base + f.start, limits, rules).value;
      forall a: Address ensures InTouch(u, m, a, base, limits, rules, k) {
        if a != f.address {
          OthersInTouch(w, u, m, a, base, limits, rules, k - 1);
        }
      }
    }
  }

  lemma {:induction false} TrafficBegins(m: Mix, base: int, limits: Limits, rules: LinkRules)
    requires |m.frames| == |m.echo|
    ensures Counted(FRESH, m, 0) && forall a: Address :: InTouch(FRESH, m, a, base, limits, rules, 0)
  {
    hide Alike;
    forall a: Address ensures InTouch(FRESH, m, a, base, limits, rules, 0) {
      FreshAlike(a);
    }
  }

  // ---------------------------------------------------------------- what comes out

  /** A message as it was sent, up to where its fragments stand. */
  ghost predicate ToldBare(x: Message, s: Sending) {
    exists n: nat, y: Message :: ToldAs(y, s, n) && x == BareMessage(y)
  }

  /** The pair's messages came out complete, in order and with their objects; nothing else did. */
  ghost predicate PairTold(ms: seq<Message>, a: Address, ss: seq<Sending>) {
    |MessagesOf(ms, a)| == |ss| && forall i | 0 <= i < |ss| :: ToldBare(MessagesOf(ms, a)[i], ss[i])
  }

  lemma {:induction false} AllOf(ms: seq<Message>, a: Address)
    requires forall i | 0 <= i < |ms| :: ms[i].address == a
    ensures |MessagesOf(ms, a)| == |ms| && forall i | 0 <= i < |ms| :: MessagesOf(ms, a)[i] == BareMessage(ms[i])
  {
    hide BareMessage;
    if ms != [] {
      AllOf(ms[..|ms| - 1], a);
    }
  }

  lemma {:induction false} SettledTold(v: Work, ss: seq<Sending>, a: Address)
    requires Settled(v, ss, |ss|) && KeyedBy(ss, a)
    ensures PairTold(v.out.messages, a, ss)
  {
    hide Nonempty, OnWire, BareMessage, MessagesOf;
    forall i | 0 <= i < |ss| ensures v.out.messages[i].address == a {
      assert ToldAs(v.out.messages[i], ss[i], Fragments(ss, i));
    }
    AllOf(v.out.messages, a);
    forall i | 0 <= i < |ss| ensures ToldBare(MessagesOf(v.out.messages, a)[i], ss[i]) {
      assert ToldAs(v.out.messages[i], ss[i], Fragments(ss, i));
    }
  }

  /** Each echo was reported once and nothing else was, and every pair's messages came out. */
  ghost predicate TrafficTold(out: Output, m: Mix) {
    && |out.issues| == EchoCount(m, |m.echo|) && out.rejected == []
    && forall a: Address :: PairTold(out.messages, a, Sent(m, a))
  }

  /** The address pair has nothing open. */
  ghost predicate Idle(w: Work, a: Address) {
    a !in w.transport && forall c: Class :: AppKey(a, c) !in w.apps
  }

  lemma {:induction false} AllIdle(w: Work)
    requires forall a: Address :: Idle(w, a)
    ensures w.transport == map[] && w.apps == map[]
  {
    assert forall k | k in w.apps :: k == AppKey(k.address, k.class_) && Idle(w, k.address);
    assert forall a | a in w.transport :: Idle(w, a);
  }

  lemma {:induction false} PairDelivered(w: Work, m: Mix, a: Address, base: int, limits: Limits, rules: LinkRules)
    requires Traffic(m, limits, rules) && InTouch(w, m, a, base, limits, rules, |m.frames|)
    ensures Idle(w, a) && PairTold(w.out.messages, a, Sent(m, a))
  {
    hide AcceptAll, OnWire, AllSound, Heard, MessagesOf, Alike;
    assert PairOk(m, a, limits, rules);
    WireEnds(m, a, base, limits, rules);
    var v := Alone(m, a, base, limits, rules, |m.frames|).value;
    SettledTold(v, Sent(m, a), a);
    NothingOpen(w, v, a);
  }

  lemma {:induction false} NothingOpen(w: Work, v: Work, a: Address)
    requires Alike(w, v, a) && v.transport == map[] && v.apps == map[]
    ensures Idle(w, a)
    ensures MessagesOf(w.out.messages, a) == MessagesOf(v.out.messages, a)
  {
    hide MessagesOf, FragmentsOf;
    forall c: Class ensures AppKey(a, c) !in w.apps {
      assert SameApp(w.apps, v.apps, AppKey(a, c));
    }
  }

  /**
   However the frames of any number of address pairs are interleaved, and whichever segments are
   repeated while their fragment is open, every pair's messages come out as sent.
   */
  lemma {:induction false} TrafficDelivers(m: Mix, base: int, limits: Limits, rules: LinkRules)
    requires Traffic(m, limits, rules)
    ensures var r := AcceptAll(FRESH, m.frames, base, limits, rules, |m.frames|);
            r.Ok? && r.value.transport == map[] && r.value.apps == map[] && TrafficTold(r.value.out, m)
  {
    hide AcceptAll, InTouch, PairOk, EchoAt, PairTold;
    TrafficRuns(m, base, limits, rules, |m.frames|);
    var w := AcceptAll(FRESH, m.frames, base, limits, rules, |m.frames|).value;
    forall a: Address ensures Idle(w, a) && PairTold(w.out.messages, a, Sent(m, a)) {
      assert InTouch(w, m, a, base, limits, rules, |m.frames|);
      PairDelivered(w, m, a, base, limits, rules);
    }
    AllIdle(w);
  }
}
