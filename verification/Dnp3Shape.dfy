/** What reassembled DNP3 state means in terms of the frames it was built from. */
module Dnp3Shape {
  import opened Common
  import opened Provenance
  import opened Dnp3Model

  // ---------------------------------------------------------------- runs of frames

  ghost predicate Adjacent(frames: seq<Frame>, i: int)
    requires 0 <= i && i + 1 < |frames|
  {
    frames[i + 1].chunk == frames[i].chunk && frames[i + 1].start == frames[i].End()
  }

  /** Frames lo to hi follow each other in one chunk without a byte between them. */
  ghost predicate Run(frames: seq<Frame>, lo: nat, hi: nat) {
    lo <= hi <= |frames| && forall i | lo <= i && i + 1 < hi :: Adjacent(frames, i)
  }

  ghost predicate Belongs(frames: seq<Frame>, id: nat, a: Address, direction: bool, lo: nat, hi: nat) {
    lo <= id < hi <= |frames| && frames[id].address == a && frames[id].Forward() == direction
  }

  /** All these frames lie in one range, with one address pair and one direction. */
  ghost predicate AllBelong(frames: seq<Frame>, ids: seq<nat>, a: Address, direction: bool, lo: nat, hi: nat) {
    forall j | 0 <= j < |ids| :: Belongs(frames, ids[j], a, direction, lo, hi)
  }

  // ---------------------------------------------------------------- segments

  ghost predicate HasSegment(frames: seq<Frame>, id: nat) {
    id < |frames| && Canonical(frames[id].userData) && frames[id].userData.data != []
  }

  ghost function Header(frames: seq<Frame>, id: nat): byte
    requires HasSegment(frames, id)
  {
    frames[id].userData.data[0]
  }

  /** Segment j of the chain: FIR on the first only, sequence numbers consecutive modulo 64. */
  ghost predicate Linked(frames: seq<Frame>, ids: seq<nat>, j: nat)
    requires j < |ids|
  {
    && HasSegment(frames, ids[j])
    && (First(Header(frames, ids[j])) <==> j == 0)
    && (j > 0 ==> HasSegment(frames, ids[j - 1]) && Sequence(Header(frames, ids[j])) == NextSegment(Sequence(Header(frames, ids[j - 1]))))
    && (j + 1 < |ids| ==> !Last(Header(frames, ids[j])))
  }

  ghost predicate Chained(frames: seq<Frame>, ids: seq<nat>) {
    ids != [] && forall j: nat | j < |ids| :: Linked(frames, ids, j)
  }

  /** What the first k segments carry behind their transport headers. */
  ghost function Carried(frames: seq<Frame>, ids: seq<nat>, k: nat): seq<Observed>
    requires k <= |ids| && AllSegments(frames, ids)
  {
    if k == 0 then []
    else
      assert HasSegment(frames, ids[k - 1]);
      Carried(frames, ids, k - 1) + View(frames[ids[k - 1]].userData)[1..]
  }

  ghost predicate AllSegments(frames: seq<Frame>, ids: seq<nat>) {
    forall j | 0 <= j < |ids| :: HasSegment(frames, ids[j])
  }

  /** Frame id repeats the bytes of one of the accepted frames. */
  ghost predicate Repeats(frames: seq<Frame>, id: nat, accepted: seq<nat>) {
    && id < |frames|
    && exists m | 0 <= m < |accepted| :: accepted[m] < |frames| && frames[accepted[m]].userData.data == frames[id].userData.data
  }

  ghost predicate AllRepeat(frames: seq<Frame>, ids: seq<nat>, accepted: seq<nat>) {
    forall j | 0 <= j < |ids| :: Repeats(frames, ids[j], accepted)
  }

  ghost predicate Within(accepted: seq<nat>, ids: seq<nat>) {
    forall m | 0 <= m < |accepted| :: accepted[m] in ids
  }

  /** The bytes are exactly those of the accepted segments, and every other frame only repeated one. */
  ghost predicate Built(frames: seq<Frame>, ids: seq<nat>, accepted: seq<nat>, bytes: Evidence) {
    && Chained(frames, accepted) && AllSegments(frames, accepted) && Within(accepted, ids) && AllRepeat(frames, ids, accepted)
    && Canonical(bytes) && View(bytes) == Carried(frames, accepted, |accepted|)
  }

  ghost predicate Remembered(frames: seq<Frame>, accepted: seq<nat>, seen: map<nat, seq<byte>>) {
    forall s | s in seen ::
      exists m | 0 <= m < |accepted| :: accepted[m] < |frames| && frames[accepted[m]].userData.data == seen[s]
  }

  /** An open transport assembly of the current run. */
  ghost predicate AssemblyOk(frames: seq<Frame>, runStart: nat, a: Address, t: Assembly) {
    && AllBelong(frames, t.frames, a, t.direction, runStart, |frames|)
    && Built(frames, t.frames, t.accepted, t.bytes) && Remembered(frames, t.accepted, t.seen)
    && HasSegment(frames, t.accepted[|t.accepted| - 1])
    && t.lastSequence == Sequence(Header(frames, t.accepted[|t.accepted| - 1]))
    && !Last(Header(frames, t.accepted[|t.accepted| - 1]))
  }

  // ---------------------------------------------------------------- fragments

  ghost predicate FragmentIn(frames: seq<Frame>, f: Fragment, direction: bool, lo: nat, hi: nat) {
    Run(frames, lo, hi) && f.frames != [] && AllBelong(frames, f.frames, f.address, direction, lo, hi)
  }

  /** An emitted fragment: a whole chain from FIR to FIN in one run, and its header fields. */
  ghost predicate FragmentOk(frames: seq<Frame>, f: Fragment) {
    && (exists d, lo, hi :: FragmentIn(frames, f, d, lo, hi))
    && Built(frames, f.frames, f.accepted, f.raw)
    && HasSegment(frames, f.accepted[|f.accepted| - 1]) && Last(Header(frames, f.accepted[|f.accepted| - 1]))
    && |f.raw.data| >= HeaderLength(f.function_) && f.control == f.raw.data[0] && f.function_ == f.raw.data[1]
    && Canonical(f.objects) && View(f.objects) == View(f.raw)[HeaderLength(f.function_)..]
  }

  // ---------------------------------------------------------------- messages

  ghost predicate PartIn(out: Output, id: nat, key: AppKey, direction: bool, lo: nat, hi: nat) {
    && id < |out.fragments| && out.fragments[id].address == key.address && out.fragments[id].class_ == key.class_
    && FragmentIn(out.frames, out.fragments[id], direction, lo, hi)
  }

  ghost predicate PartsIn(out: Output, ids: seq<nat>, key: AppKey, direction: bool, lo: nat, hi: nat) {
    Run(out.frames, lo, hi) && forall j | 0 <= j < |ids| :: PartIn(out, ids[j], key, direction, lo, hi)
  }

  /** Fragment j of a message: FIR on the first only, sequence consecutive modulo 16, one function. */
  ghost predicate Ordered(fragments: seq<Fragment>, ids: seq<nat>, function_: u8, j: nat)
    requires j < |ids|
  {
    && ids[j] < |fragments| && fragments[ids[j]].function_ == function_
    && (fragments[ids[j]].First() <==> j == 0)
    && (j > 0 ==> ids[j - 1] < |fragments|
                  && fragments[ids[j]].SequenceNumber() == NextFragment(fragments[ids[j - 1]].SequenceNumber()))
    && (j + 1 < |ids| ==> !fragments[ids[j]].Final())
  }

  ghost predicate AllOrdered(fragments: seq<Fragment>, ids: seq<nat>, function_: u8) {
    ids != [] && forall j: nat | j < |ids| :: Ordered(fragments, ids, function_, j)
  }

  ghost predicate ObjectsOk(fragments: seq<Fragment>, ids: seq<nat>) {
    forall j | 0 <= j < |ids| :: ids[j] < |fragments| && Canonical(fragments[ids[j]].objects)
  }

  ghost function Objects(fragments: seq<Fragment>, ids: seq<nat>, k: nat): seq<Observed>
    requires k <= |ids| && ObjectsOk(fragments, ids)
  {
    if k == 0 then [] else Objects(fragments, ids, k - 1) + View(fragments[ids[k - 1]].objects)
  }

  ghost function PartPackets(out: Output, ids: seq<nat>, k: nat): set<PacketId>
    requires k <= |ids|
  {
    if k == 0 then {}
    else PartPackets(out, ids, k - 1)
         + if ids[k - 1] < |out.fragments| then FramePackets(out.frames, out.fragments[ids[k - 1]].frames) else {}
  }

  /** The parts of a message are in order and its objects and packets are exactly theirs. */
  ghost predicate Assembled(out: Output, ids: seq<nat>, function_: u8, firstSequence: nat, objects: Evidence, packets: set<PacketId>) {
    && AllOrdered(out.fragments, ids, function_) && ObjectsOk(out.fragments, ids)
    && ids[0] < |out.fragments| && firstSequence == out.fragments[ids[0]].SequenceNumber()
    && Canonical(objects) && View(objects) == Objects(out.fragments, ids, |ids|)
    && packets == PartPackets(out, ids, |ids|)
  }

  ghost predicate AppOk(out: Output, runStart: nat, key: AppKey, a: App) {
    && a.address == key.address && a.class_ == key.class_
    && PartsIn(out, a.fragments, key, a.direction, runStart, |out.frames|)
    && Assembled(out, a.fragments, a.function_, a.firstSequence, a.objects, a.packets)
    && a.lastSequence == out.fragments[a.fragments[|a.fragments| - 1]].SequenceNumber()
  }

  ghost predicate EndsFinal(fragments: seq<Fragment>, ids: seq<nat>) {
    ids != [] && ids[|ids| - 1] < |fragments| && fragments[ids[|ids| - 1]].Final()
  }

  /**
   An emitted message: its fragments lie in one unbroken run of good frames of one chunk, with one
   address pair and direction; it starts with FIR, and is complete exactly when it ends with FIN.
   */
  ghost predicate MessageOk(out: Output, m: Message) {
    && (exists d, lo, hi :: PartsIn(out, m.fragments, AppKey(m.address, m.class_), d, lo, hi))
    && Assembled(out, m.fragments, m.function_, m.firstSequence, m.objects, m.packets)
    && (m.complete <==> EndsFinal(out.fragments, m.fragments))
  }

  // ---------------------------------------------------------------- the whole state

  ghost predicate FramesOk(frames: seq<Frame>) {
    forall i | 0 <= i < |frames| :: Canonical(frames[i].userData)
  }

  ghost predicate AssembliesOk(w: Work) {
    forall a | a in w.transport :: AssemblyOk(w.out.frames, w.runStart, a, w.transport[a])
  }

  ghost predicate AppsOk(w: Work) {
    forall k | k in w.apps :: AppOk(w.out, w.runStart, k, w.apps[k])
  }

  ghost predicate FragmentsOk(out: Output) {
    forall i | 0 <= i < |out.fragments| :: FragmentOk(out.frames, out.fragments[i])
  }

  ghost predicate MessagesOk(out: Output) {
    forall i | 0 <= i < |out.messages| :: MessageOk(out, out.messages[i])
  }

  ghost predicate Good(w: Work) {
    && FramesOk(w.out.frames) && Run(w.out.frames, w.runStart, |w.out.frames|)
    && AssembliesOk(w) && AppsOk(w) && FragmentsOk(w.out) && MessagesOk(w.out)
  }

  /** No open message already ends with FIN, except perhaps this one. */
  ghost predicate OpenBut(w: Work, key: Option<AppKey>) {
    forall k | k in w.apps && Some(k) != key :: !EndsFinal(w.out.fragments, w.apps[k].fragments)
  }

  // ---------------------------------------------------------------- growth

  ghost predicate Grows(out: Output, more: Output) {
    && |out.frames| <= |more.frames| && (forall i | 0 <= i < |out.frames| :: more.frames[i] == out.frames[i])
    && |out.fragments| <= |more.fragments| && (forall i | 0 <= i < |out.fragments| :: more.fragments[i] == out.fragments[i])
  }

  ghost predicate FramesGrow(frames: seq<Frame>, more: seq<Frame>) {
    |frames| <= |more| && forall i | 0 <= i < |frames| :: more[i] == frames[i]
  }

  lemma {:induction false} RunGrows(frames: seq<Frame>, more: seq<Frame>, lo: nat, hi: nat)
    requires FramesGrow(frames, more) && Run(frames, lo, hi)
    ensures Run(more, lo, hi)
  {
    forall i | lo <= i && i + 1 < hi ensures Adjacent(more, i) {
      assert Adjacent(frames, i);
    }
  }

  lemma {:induction false} BelongGrows(frames: seq<Frame>, more: seq<Frame>, ids: seq<nat>, a: Address, d: bool, lo: nat, hi: nat, top: nat)
    requires FramesGrow(frames, more) && AllBelong(frames, ids, a, d, lo, hi) && hi <= top <= |more|
    ensures AllBelong(more, ids, a, d, lo, top)
  {
    forall j | 0 <= j < |ids| ensures Belongs(more, ids[j], a, d, lo, top) {
      assert Belongs(frames, ids[j], a, d, lo, hi);
    }
  }

  lemma {:induction false} ChainedGrows(frames: seq<Frame>, more: seq<Frame>, ids: seq<nat>)
    requires FramesGrow(frames, more) && Chained(frames, ids)
    ensures Chained(more, ids)
  {
    hide Canonical;
    forall j: nat | j < |ids| ensures Linked(more, ids, j) {
      assert Linked(frames, ids, j);
    }
  }

  lemma {:induction false} CarriedGrows(frames: seq<Frame>, more: seq<Frame>, ids: seq<nat>, k: nat)
    requires FramesGrow(frames, more) && AllSegments(frames, ids) && k <= |ids|
    ensures AllSegments(more, ids) && Carried(more, ids, k) == Carried(frames, ids, k)
  {
    hide Canonical, View;
    forall j | 0 <= j < |ids| ensures HasSegment(more, ids[j]) {
      assert HasSegment(frames, ids[j]);
    }
    if k > 0 {
      CarriedGrows(frames, more, ids, k - 1);
      assert HasSegment(frames, ids[k - 1]);
    }
  }

  lemma {:induction false} RepeatGrows(frames: seq<Frame>, more: seq<Frame>, ids: seq<nat>, accepted: seq<nat>)
    requires FramesGrow(frames, more) && AllRepeat(frames, ids, accepted)
    ensures AllRepeat(more, ids, accepted)
  {
    forall j | 0 <= j < |ids| ensures Repeats(more, ids[j], accepted) {
      assert Repeats(frames, ids[j], accepted);
      var m :| 0 <= m < |accepted| && accepted[m] < |frames| && frames[accepted[m]].userData.data == frames[ids[j]].userData.data;
      assert more[accepted[m]].userData.data == more[ids[j]].userData.data;
    }
  }

  lemma {:induction false} BuiltGrows(frames: seq<Frame>, more: seq<Frame>, ids: seq<nat>, accepted: seq<nat>, bytes: Evidence)
    requires FramesGrow(frames, more) && Built(frames, ids, accepted, bytes)
    ensures Built(more, ids, accepted, bytes)
  {
    hide FramesGrow, Chained, AllSegments, AllRepeat, Canonical, View, Carried;
    ChainedGrows(frames, more, accepted);
    CarriedGrows(frames, more, accepted, |accepted|);
    RepeatGrows(frames, more, ids, accepted);
  }

  lemma {:induction false} RememberedGrows(frames: seq<Frame>, more: seq<Frame>, accepted: seq<nat>, seen: map<nat, seq<byte>>)
    requires FramesGrow(frames, more) && Remembered(frames, accepted, seen)
    ensures Remembered(more, accepted, seen)
  {
    forall s | s in seen
      ensures exists m | 0 <= m < |accepted| :: accepted[m] < |more| && more[accepted[m]].userData.data == seen[s]
    {
      var m :| 0 <= m < |accepted| && accepted[m] < |frames| && frames[accepted[m]].userData.data == seen[s];
      assert more[accepted[m]].userData.data == seen[s];
    }
  }

  lemma {:induction false} AssemblyGrows(frames: seq<Frame>, more: seq<Frame>, runStart: nat, a: Address, t: Assembly)
    requires FramesGrow(frames, more) && AssemblyOk(frames, runStart, a, t)
    ensures AssemblyOk(more, runStart, a, t)
  {
    hide Built, AllBelong, Remembered, Canonical;
    BelongGrows(frames, more, t.frames, a, t.direction, runStart, |frames|, |more|);
    BuiltGrows(frames, more, t.frames, t.accepted, t.bytes);
    RememberedGrows(frames, more, t.accepted, t.seen);
    BuiltNonempty(frames, t.frames, t.accepted, t.bytes);
    assert HasSegment(frames, t.accepted[|t.accepted| - 1]);
  }

  lemma {:induction false} BuiltNonempty(frames: seq<Frame>, ids: seq<nat>, accepted: seq<nat>, bytes: Evidence)
    requires Built(frames, ids, accepted, bytes)
    ensures accepted != [] && ids != []
  {
    hide AllSegments, AllRepeat, Canonical, View, Carried, Linked;
    assert accepted[0] in ids;
  }

  lemma {:induction false} FragmentInGrows(frames: seq<Frame>, more: seq<Frame>, f: Fragment, d: bool, lo: nat, hi: nat)
    requires FramesGrow(frames, more) && FragmentIn(frames, f, d, lo, hi)
    ensures FragmentIn(more, f, d, lo, hi)
  {
    hide Run, AllBelong;
    RunBound(frames, lo, hi);
    RunGrows(frames, more, lo, hi);
    BelongGrows(frames, more, f.frames, f.address, d, lo, hi, hi);
  }

  lemma {:induction false} RunBound(frames: seq<Frame>, lo: nat, hi: nat)
    requires Run(frames, lo, hi)
    ensures lo <= hi <= |frames|
  {
  }

  lemma {:induction false} FragmentGrows(frames: seq<Frame>, more: seq<Frame>, f: Fragment)
    requires FramesGrow(frames, more) && FragmentOk(frames, f)
    ensures FragmentOk(more, f)
  {
    hide FragmentIn, Built, Canonical, View;
    var d, lo, hi :| FragmentIn(frames, f, d, lo, hi);
    FragmentInGrows(frames, more, f, d, lo, hi);
    BuiltGrows(frames, more, f.frames, f.accepted, f.raw);
    BuiltNonempty(frames, f.frames, f.accepted, f.raw);
    assert HasSegment(frames, f.accepted[|f.accepted| - 1]);
  }

  lemma {:induction false} FragmentInWidens(frames: seq<Frame>, more: seq<Frame>, f: Fragment, d: bool, lo: nat)
    requires FramesGrow(frames, more) && FragmentIn(frames, f, d, lo, |frames|) && Run(more, lo, |more|)
    ensures FragmentIn(more, f, d, lo, |more|)
  {
    hide Run, AllBelong;
    BelongGrows(frames, more, f.frames, f.address, d, lo, |frames|, |more|);
  }

  lemma {:induction false} PartsGrow(out: Output, more: Output, ids: seq<nat>, key: AppKey, d: bool, lo: nat, hi: nat)
    requires Grows(out, more) && PartsIn(out, ids, key, d, lo, hi)
    ensures PartsIn(more, ids, key, d, lo, hi)
  {
    hide Run, FragmentIn;
    RunGrows(out.frames, more.frames, lo, hi);
    forall j | 0 <= j < |ids| ensures PartIn(more, ids[j], key, d, lo, hi) {
      assert PartIn(out, ids[j], key, d, lo, hi);
      FragmentInGrows(out.frames, more.frames, out.fragments[ids[j]], d, lo, hi);
    }
  }

  lemma {:induction false} PartsWiden(out: Output, more: Output, ids: seq<nat>, key: AppKey, d: bool, lo: nat)
    requires Grows(out, more) && PartsIn(out, ids, key, d, lo, |out.frames|) && Run(more.frames, lo, |more.frames|)
    ensures PartsIn(more, ids, key, d, lo, |more.frames|)
  {
    hide Run, FragmentIn;
    forall j | 0 <= j < |ids| ensures PartIn(more, ids[j], key, d, lo, |more.frames|) {
      assert PartIn(out, ids[j], key, d, lo, |out.frames|);
      FragmentInWidens(out.frames, more.frames, out.fragments[ids[j]], d, lo);
    }
  }

  lemma {:induction false} OrderedGrows(fragments: seq<Fragment>, more: seq<Fragment>, ids: seq<nat>, function_: u8)
    requires |fragments| <= |more| && (forall i | 0 <= i < |fragments| :: more[i] == fragments[i])
    requires AllOrdered(fragments, ids, function_)
    ensures AllOrdered(more, ids, function_)
  {
    forall j: nat | j < |ids| ensures Ordered(more, ids, function_, j) {
      assert Ordered(fragments, ids, function_, j);
    }
  }

  lemma {:induction false} ObjectsGrow(fragments: seq<Fragment>, more: seq<Fragment>, ids: seq<nat>, k: nat)
    requires |fragments| <= |more| && (forall i | 0 <= i < |fragments| :: more[i] == fragments[i])
    requires ObjectsOk(fragments, ids) && k <= |ids|
    ensures ObjectsOk(more, ids) && Objects(more, ids, k) == Objects(fragments, ids, k)
  {
    hide Canonical, View;
    if k > 0 {
      ObjectsGrow(fragments, more, ids, k - 1);
    }
  }

  ghost predicate FramesWithin(out: Output, ids: seq<nat>) {
    forall j | 0 <= j < |ids| :: ids[j] < |out.fragments| && FragmentFramesExist(out, ids[j])
  }

  ghost predicate FragmentFramesExist(out: Output, id: nat) {
    id < |out.fragments| && forall m | 0 <= m < |out.fragments[id].frames| :: out.fragments[id].frames[m] < |out.frames|
  }

  lemma {:induction false} PartsExist(out: Output, ids: seq<nat>, key: AppKey, d: bool, lo: nat, hi: nat)
    requires PartsIn(out, ids, key, d, lo, hi)
    ensures FramesWithin(out, ids)
  {
    hide Run;
    forall j | 0 <= j < |ids| ensures ids[j] < |out.fragments| && FragmentFramesExist(out, ids[j]) {
      assert PartIn(out, ids[j], key, d, lo, hi);
      var f := out.fragments[ids[j]];
      forall m | 0 <= m < |f.frames| ensures f.frames[m] < |out.frames| {
        assert Belongs(out.frames, f.frames[m], f.address, d, lo, hi);
      }
    }
  }

  lemma {:induction false} FramePacketsGrow(frames: seq<Frame>, more: seq<Frame>, ids: seq<nat>)
    requires FramesGrow(frames, more) && forall m | 0 <= m < |ids| :: ids[m] < |frames|
    ensures FramePackets(more, ids) == FramePackets(frames, ids)
  {
    hide Packets;
  }

  lemma {:induction false} PacketsGrow(out: Output, more: Output, ids: seq<nat>, k: nat)
    requires Grows(out, more) && FramesWithin(out, ids) && k <= |ids|
    ensures PartPackets(more, ids, k) == PartPackets(out, ids, k)
  {
    hide FramePackets;
    if k > 0 {
      PacketsGrow(out, more, ids, k - 1);
      assert FragmentFramesExist(out, ids[k - 1]);
      FramePacketsGrow(out.frames, more.frames, out.fragments[ids[k - 1]].frames);
    }
  }

  lemma {:induction false} AssembledGrows(out: Output, more: Output, ids: seq<nat>, function_: u8, firstSequence: nat, objects: Evidence, packets: set<PacketId>)
    requires Grows(out, more) && FramesWithin(out, ids) && Assembled(out, ids, function_, firstSequence, objects, packets)
    ensures Assembled(more, ids, function_, firstSequence, objects, packets)
  {
    hide AllOrdered, ObjectsOk, Canonical, View, Objects, PartPackets, FramesWithin;
    OrderedGrows(out.fragments, more.fragments, ids, function_);
    OrderedNonempty(out.fragments, ids, function_);
    ObjectsGrow(out.fragments, more.fragments, ids, |ids|);
    PacketsGrow(out, more, ids, |ids|);
  }

  lemma {:induction false} OrderedNonempty(fragments: seq<Fragment>, ids: seq<nat>, function_: u8)
    requires AllOrdered(fragments, ids, function_)
    ensures ids != [] && ids[|ids| - 1] < |fragments|
  {
    assert Ordered(fragments, ids, function_, |ids| - 1);
  }

  lemma {:induction false} AppGrows(out: Output, more: Output, runStart: nat, key: AppKey, a: App)
    requires Grows(out, more) && AppOk(out, runStart, key, a) && Run(more.frames, runStart, |more.frames|)
    ensures AppOk(more, runStart, key, a)
  {
    hide PartsIn, Assembled, FramesWithin, Run;
    PartsExist(out, a.fragments, key, a.direction, runStart, |out.frames|);
    PartsWiden(out, more, a.fragments, key, a.direction, runStart);
    AssembledGrows(out, more, a.fragments, a.function_, a.firstSequence, a.objects, a.packets);
    AssembledNonempty(out, a.fragments, a.function_, a.firstSequence, a.objects, a.packets);
  }

  lemma {:induction false} AssembledNonempty(out: Output, ids: seq<nat>, function_: u8, firstSequence: nat, objects: Evidence, packets: set<PacketId>)
    requires Assembled(out, ids, function_, firstSequence, objects, packets)
    ensures ids != [] && ids[|ids| - 1] < |out.fragments|
  {
    hide ObjectsOk, Canonical, View, Objects, PartPackets;
    OrderedNonempty(out.fragments, ids, function_);
  }

  lemma {:induction false} MessageGrows(out: Output, more: Output, m: Message)
    requires Grows(out, more) && MessageOk(out, m)
    ensures MessageOk(more, m)
  {
    hide PartsIn, Assembled, FramesWithin;
    var key := AppKey(m.address, m.class_);
    var d, lo, hi :| PartsIn(out, m.fragments, key, d, lo, hi);
    PartsExist(out, m.fragments, key, d, lo, hi);
    PartsGrow(out, more, m.fragments, key, d, lo, hi);
    AssembledGrows(out, more, m.fragments, m.function_, m.firstSequence, m.objects, m.packets);
    AssembledNonempty(out, m.fragments, m.function_, m.firstSequence, m.objects, m.packets);
  }

  /** Everything established stays so while frames and fragments are only added. */
  lemma {:induction false} MessagesGrow(out: Output, more: Output)
    requires Grows(out, more) && MessagesOk(out) && more.messages == out.messages
    ensures MessagesOk(more)
  {
    hide MessageOk;
    forall i | 0 <= i < |more.messages| ensures MessageOk(more, more.messages[i]) {
      assert MessageOk(out, out.messages[i]);
      MessageGrows(out, more, out.messages[i]);
    }
  }
}
