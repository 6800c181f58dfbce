/**
 Address pairs do not notice each other. Two runs that agree on everything an address pair can see stay
 in step on that pair's frames, whatever else either of them has open or has put out.
 */
module Dnp3Isolation {
  import opened Common
  import opened Provenance
  import opened Dnp3Model
  import opened Dnp3Transport
  import opened Dnp3Effects

  // ---------------------------------------------------------------- what an address pair can see

  /** An assembly, an open message, a fragment and a message without the places of their parts. */
  function BareAssembly(t: Assembly): Assembly {
    t.(frames := [], accepted := [])
  }

  function BareApp(x: App): App {
    x.(fragments := [], packets := {})
  }

  function BareFragment(f: Fragment): Fragment {
    f.(frames := [], accepted := [])
  }

  function BareMessage(m: Message): Message {
    m.(fragments := [], packets := {})
  }

  function FragmentsOf(fs: seq<Fragment>, a: Address): seq<Fragment> {
    if fs == [] then []
    else FragmentsOf(fs[..|fs| - 1], a) + if fs[|fs| - 1].address == a then [BareFragment(fs[|fs| - 1])] else []
  }

  function MessagesOf(ms: seq<Message>, a: Address): seq<Message> {
    if ms == [] then []
    else MessagesOf(ms[..|ms| - 1], a) + if ms[|ms| - 1].address == a then [BareMessage(ms[|ms| - 1])] else []
  }

  ghost predicate SameAssembly(w: Work, v: Work, a: Address) {
    && (a in w.transport <==> a in v.transport)
    && (a in w.transport ==>
          && BareAssembly(w.transport[a]) == BareAssembly(v.transport[a])
          && |w.transport[a].frames| <= |w.out.frames| && |v.transport[a].frames| <= |v.out.frames|)
  }

  ghost predicate SameApp(w: map<AppKey, App>, v: map<AppKey, App>, k: AppKey) {
    (k in w <==> k in v) && (k in w ==> BareApp(w[k]) == BareApp(v[k]))
  }

  ghost predicate SameApps(w: Work, v: Work, a: Address) {
    && Keyed(w.apps) && Keyed(v.apps)
    && (forall c: Class :: SameApp(w.apps, v.apps, AppKey(a, c)))
  }

  ghost predicate SamePutOut(w: Work, v: Work, a: Address) {
    && FragmentsOf(w.out.fragments, a) == FragmentsOf(v.out.fragments, a)
    && MessagesOf(w.out.messages, a) == MessagesOf(v.out.messages, a)
  }

  /** The two states look alike to the address pair. */
  ghost predicate Alike(w: Work, v: Work, a: Address) {
    SameAssembly(w, v, a) && SameApps(w, v, a) && SamePutOut(w, v, a)
  }

  lemma {:induction false} AlikeSymmetric(w: Work, v: Work, a: Address)
    requires Alike(w, v, a)
    ensures Alike(v, w, a)
  {
  }

  // ---------------------------------------------------------------- steps side by side

  ghost predicate Grew(v: Work, u: Work) {
    && |v.out.fragments| <= |u.out.fragments| && |v.out.messages| <= |u.out.messages| && |v.out.issues| <= |u.out.issues|
    && |v.out.frames| <= |u.out.frames|
  }

  /** From m on there is room for what takes n to k: m is behind n, or the budget says so. */
  predicate Room(m: nat, n: nat, k: nat, maximum: nat) {
    m <= n || m + k - n <= maximum
  }

  /** The budgets of w hold what takes v to u. */
  ghost predicate Fits(w: Work, v: Work, u: Work, limits: Limits) {
    && Room(|w.out.fragments|, |v.out.fragments|, |u.out.fragments|, limits.maxProtocolMessages)
    && Room(|w.out.messages|, |v.out.messages|, |u.out.messages|, limits.maxProtocolMessages)
    && Room(|w.out.issues|, |v.out.issues|, |u.out.issues|, limits.maxProtocolMessages)
  }

  /** Both runs put out equally much. */
  ghost predicate Parallel(w: Work, v: Work, x: Work, u: Work) {
    && |x.out.fragments| - |w.out.fragments| == |u.out.fragments| - |v.out.fragments|
    && |x.out.messages| - |w.out.messages| == |u.out.messages| - |v.out.messages|
    && |x.out.issues| - |w.out.issues| == |u.out.issues| - |v.out.issues|
    && |x.out.frames| - |w.out.frames| == |u.out.frames| - |v.out.frames|
  }

  /** If the second run succeeds and the first has the budgets for it, the first succeeds alike. */
  ghost predicate InStep(w: Work, v: Work, a: Address, limits: Limits, rw: Result<Work>, rv: Result<Work>) {
    rv.Ok? ==>
      && Grew(v, rv.value)
      && (Fits(w, v, rv.value, limits) ==> rw.Ok? && Alike(rw.value, rv.value, a) && Parallel(w, v, rw.value, rv.value))
  }

  lemma {:induction false} Then(w: Work, v: Work, a: Address, limits: Limits, rw1: Result<Work>, rv1: Result<Work>, rw2: Result<Work>, rv2: Result<Work>)
    requires InStep(w, v, a, limits, rw1, rv1) && (rv2.Ok? ==> rv1.Ok? && Grew(rv1.value, rv2.value))
    requires rw1.Ok? && rv1.Ok? && Alike(rw1.value, rv1.value, a) ==> InStep(rw1.value, rv1.value, a, limits, rw2, rv2)
    ensures InStep(w, v, a, limits, rw2, rv2)
  {
    hide Alike;
  }

  lemma {:induction false} Stays(w: Work, v: Work, a: Address, limits: Limits)
    requires Alike(w, v, a)
    ensures InStep(w, v, a, limits, Ok(w), Ok(v))
  {
    hide Alike;
  }

  lemma {:induction false} ConfinedGrew(w: Work, v: Work, a: Address)
    requires Confined(w, v, a)
    ensures Grew(w, v)
  {
    hide Keyed, NewOf, KeysOf;
  }

  lemma {:induction false} ReportInStep(w: Work, v: Work, a: Address, limits: Limits, code: IssueCode, pw: set<PacketId>, pv: set<PacketId>, at: int)
    requires Alike(w, v, a)
    ensures InStep(w, v, a, limits, Report(w, code, pw, at, limits), Report(v, code, pv, at, limits))
  {
    hide Keyed, FragmentsOf, MessagesOf, BareApp, BareAssembly;
  }

  lemma {:induction false} MessagesSnoc(ms: seq<Message>, m: Message, a: Address)
    ensures MessagesOf(ms + [m], a) == MessagesOf(ms, a) + if m.address == a then [BareMessage(m)] else []
  {
    assert (ms + [m])[..|ms|] == ms;
  }

  lemma {:induction false} FragmentsSnoc(fs: seq<Fragment>, f: Fragment, a: Address)
    ensures FragmentsOf(fs + [f], a) == FragmentsOf(fs, a) + if f.address == a then [BareFragment(f)] else []
  {
    assert (fs + [f])[..|fs|] == fs;
  }

  lemma {:induction false} EmitInStep(w: Work, v: Work, a: Address, limits: Limits, c: Class, complete: bool)
    requires Alike(w, v, a)
    ensures var k := AppKey(a, c);
            InStep(w, v, a, limits, EmitIfOpen(w, k, complete, limits), EmitIfOpen(v, k, complete, limits))
  {
    hide FragmentsOf, MessagesOf;
    var k := AppKey(a, c);
    assert SameApp(w.apps, v.apps, k);
    if k in w.apps {
      MessagesSnoc(w.out.messages, MessageOf(w.apps[k], complete), a);
      MessagesSnoc(v.out.messages, MessageOf(v.apps[k], complete), a);
      RemovedApps(w.apps, v.apps, a, k);
    }
  }

  lemma {:induction false} RemovedApps(w: map<AppKey, App>, v: map<AppKey, App>, a: Address, k: AppKey)
    requires Keyed(w) && Keyed(v) && forall c: Class :: SameApp(w, v, AppKey(a, c))
    ensures Keyed(w - {k}) && Keyed(v - {k}) && forall c: Class :: SameApp(w - {k}, v - {k}, AppKey(a, c))
  {
    hide BareApp;
    forall c: Class ensures SameApp(w - {k}, v - {k}, AppKey(a, c)) {
      assert SameApp(w, v, AppKey(a, c));
    }
  }

  lemma {:induction false} StoredApps(w: map<AppKey, App>, v: map<AppKey, App>, a: Address, k: AppKey, x: App, y: App)
    requires Keyed(w) && Keyed(v) && forall c: Class :: SameApp(w, v, AppKey(a, c))
    requires BareApp(x) == BareApp(y) && x.address == k.address && x.class_ == k.class_
    ensures Keyed(w[k := x]) && Keyed(v[k := y]) && forall c: Class :: SameApp(w[k := x], v[k := y], AppKey(a, c))
  {
    forall c: Class ensures SameApp(w[k := x], v[k := y], AppKey(a, c)) {
      assert SameApp(w, v, AppKey(a, c));
    }
  }

  lemma {:induction false} EmitGrew(w: Work, k: AppKey, complete: bool, limits: Limits)
    ensures EmitIfOpen(w, k, complete, limits).Ok? ==> Grew(w, EmitIfOpen(w, k, complete, limits).value)
  {
  }

  /** A message of the address ends on both sides, or on neither. */
  lemma {:induction false} EmitThen(w: Work, v: Work, a: Address, limits: Limits, c: Class, complete: bool, rw: Result<Work>, rv: Result<Work>)
    requires InStep(w, v, a, limits, rw, rv)
    ensures var k := AppKey(a, c);
            InStep(w, v, a, limits,
                   match rw case Ok(x) => EmitIfOpen(x, k, complete, limits) case Err(e) => Err(e),
                   match rv case Ok(x) => EmitIfOpen(x, k, complete, limits) case Err(e) => Err(e))
  {
    hide Alike, EmitIfOpen;
    var k := AppKey(a, c);
    if rv.Ok? {
      EmitGrew(rv.value, k, complete, limits);
      if rw.Ok? && Alike(rw.value, rv.value, a) {
        EmitInStep(rw.value, rv.value, a, limits, c, complete);
      }
    }
  }

  function AndEmit(r: Result<Work>, k: AppKey, complete: bool, limits: Limits): Result<Work> {
    match r case Ok(x) => EmitIfOpen(x, k, complete, limits) case Err(e) => Err(e)
  }

  function Interrupted(w: Work, a: Address, limits: Limits): Result<Work> {
    AndEmit(AndEmit(AndEmit(AndEmit(AndEmit(Ok(w), AppKey(a, Request), false, limits), AppKey(a, Response), false, limits),
      AppKey(a, Unsolicited), false, limits), AppKey(a, Confirm), false, limits), AppKey(a, UnknownClass), false, limits)
  }

  lemma {:induction false} InterruptedIs(w: Work, a: Address, limits: Limits)
    ensures Interrupt(w, a, limits) == Interrupted(w, a, limits)
  {
    hide EmitIfOpen;
  }

  lemma {:induction false} InterruptInStep(w: Work, v: Work, a: Address, limits: Limits)
    requires Alike(w, v, a)
    ensures InStep(w, v, a, limits, Interrupt(w, a, limits), Interrupt(v, a, limits))
  {
    hide Alike, EmitIfOpen, InStep, Interrupt;
    InterruptedIs(w, a, limits);
    InterruptedIs(v, a, limits);
    Stays(w, v, a, limits);
    var w1, v1 := AndEmit(Ok(w), AppKey(a, Request), false, limits), AndEmit(Ok(v), AppKey(a, Request), false, limits);
    EmitThen(w, v, a, limits, Request, false, Ok(w), Ok(v));
    var w2, v2 := AndEmit(w1, AppKey(a, Response), false, limits), AndEmit(v1, AppKey(a, Response), false, limits);
    EmitThen(w, v, a, limits, Response, false, w1, v1);
    var w3, v3 := AndEmit(w2, AppKey(a, Unsolicited), false, limits), AndEmit(v2, AppKey(a, Unsolicited), false, limits);
    EmitThen(w, v, a, limits, Unsolicited, false, w2, v2);
    var w4, v4 := AndEmit(w3, AppKey(a, Confirm), false, limits), AndEmit(v3, AppKey(a, Confirm), false, limits);
    EmitThen(w, v, a, limits, Confirm, false, w3, v3);
    EmitThen(w, v, a, limits, UnknownClass, false, w4, v4);
  }

  lemma {:induction false} ClearedAlike(w: Work, v: Work, a: Address)
    requires Alike(w, v, a)
    ensures Alike(w.(transport := w.transport - {a}), v.(transport := v.transport - {a}), a)
  {
    hide FragmentsOf, MessagesOf, Keyed;
  }

  lemma {:induction false} StoredAlike(w: Work, v: Work, a: Address, t: Assembly, s: Assembly)
    requires Alike(w, v, a) && BareAssembly(t) == BareAssembly(s) && |t.frames| <= |w.out.frames| && |s.frames| <= |v.out.frames|
    ensures Alike(w.(transport := w.transport[a := t]), v.(transport := v.transport[a := s]), a)
  {
    hide FragmentsOf, MessagesOf, Keyed;
  }

  /** Changing only what is open changes no count. */
  lemma {:induction false} OnlyTransport(w: Work, v: Work, a: Address, limits: Limits, x: Work, u: Work, rw: Result<Work>, rv: Result<Work>)
    requires x.out == w.out && u.out == v.out && InStep(x, u, a, limits, rw, rv)
    ensures InStep(w, v, a, limits, rw, rv)
  {
    hide Alike;
  }

  lemma {:induction false} DropInStep(w: Work, v: Work, a: Address, limits: Limits, code: IssueCode, pw: set<PacketId>, pv: set<PacketId>, at: int)
    requires Alike(w, v, a)
    ensures InStep(w, v, a, limits, Drop(w, a, code, pw, at, limits), Drop(v, a, code, pv, at, limits))
  {
    hide Alike, Interrupt, Report, InStep, Confined, Discarded, Grew;
    var rw, rv := Report(w, code, pw, at, limits), Report(v, code, pv, at, limits);
    var dw, dv := Drop(w, a, code, pw, at, limits), Drop(v, a, code, pv, at, limits);
    ReportInStep(w, v, a, limits, code, pw, pv, at);
    if dv.Ok? {
      InterruptGrew(rv.value.(transport := rv.value.transport - {a}), a, limits);
      GrewOut(rv.value, rv.value.(transport := rv.value.transport - {a}), dv.value);
    }
    if rw.Ok? && rv.Ok? && Alike(rw.value, rv.value, a) {
      var x, u := rw.value.(transport := rw.value.transport - {a}), rv.value.(transport := rv.value.transport - {a});
      ClearedAlike(rw.value, rv.value, a);
      InterruptInStep(x, u, a, limits);
      OnlyTransport(rw.value, rv.value, a, limits, x, u, dw, dv);
    }
    Then(w, v, a, limits, rw, rv, dw, dv);
  }

  lemma {:induction false} GrewOut(v: Work, u: Work, x: Work)
    requires u.out == v.out && Grew(u, x)
    ensures Grew(v, x)
  {
  }

  lemma {:induction false} InterruptGrew(w: Work, a: Address, limits: Limits)
    ensures Interrupt(w, a, limits).Ok? ==> Grew(w, Interrupt(w, a, limits).value)
  {
    hide Interrupt, KeysOf, ClosingAll;
    InterruptCloses(w, a, limits);
  }

  // ---------------------------------------------------------------- fragments

  /** The same fragment, up to the places of its frames. */
  ghost predicate SameFragment(f: Fragment, g: Fragment, a: Address) {
    BareFragment(f) == BareFragment(g) && f.address == a
  }

  lemma {:induction false} SameFragmentFields(f: Fragment, g: Fragment, a: Address)
    requires SameFragment(f, g, a)
    ensures f.address == g.address == a && f.class_ == g.class_ && f.control == g.control && f.function_ == g.function_ && f.objects == g.objects
  {
  }

  function Stored(w: Work, k: AppKey, x: App): Work {
    w.(apps := w.apps[k := x])
  }

  lemma {:induction false} StoredInStep(w: Work, v: Work, a: Address, limits: Limits, k: AppKey, x: App, y: App)
    requires Alike(w, v, a) && BareApp(x) == BareApp(y) && x.address == k.address && x.class_ == k.class_
    ensures InStep(w, v, a, limits, Ok(Stored(w, k, x)), Ok(Stored(v, k, y)))
  {
    hide FragmentsOf, MessagesOf, BareApp, SameApp, Keyed;
    StoredApps(w.apps, v.apps, a, k, x, y);
  }

  lemma {:induction false} AppFields(w: Work, v: Work, a: Address, c: Class)
    requires Alike(w, v, a)
    ensures var k := AppKey(a, c);
            && (k in w.apps <==> k in v.apps)
            && (k in w.apps ==> BareApp(w.apps[k]) == BareApp(v.apps[k]) && w.apps[k].address == a && w.apps[k].class_ == c)
  {
    hide FragmentsOf, MessagesOf, BareApp;
    assert SameApp(w.apps, v.apps, AppKey(a, c));
  }

  lemma {:induction false} ExtendSame(x: App, y: App, f: Fragment, g: Fragment, idw: nat, idv: nat, pw: set<PacketId>, pv: set<PacketId>, limits: Limits)
    requires BareApp(x) == BareApp(y) && f.control == g.control && f.objects == g.objects && f.function_ == g.function_
    ensures Continues(x, f) <==> Continues(y, g)
    ensures ExtendApp(x, f, idw, pw, limits).Ok? <==> ExtendApp(y, g, idv, pv, limits).Ok?
    ensures ExtendApp(x, f, idw, pw, limits).Ok? ==>
              var r := ExtendApp(x, f, idw, pw, limits).value;
              BareApp(r) == BareApp(ExtendApp(y, g, idv, pv, limits).value) && r.address == x.address && r.class_ == x.class_
  {
    hide AppendSpans;
    assert x.lastSequence == BareApp(x).lastSequence && x.function_ == BareApp(x).function_ && x.objects == BareApp(x).objects;
    assert y.lastSequence == BareApp(y).lastSequence && y.function_ == BareApp(y).function_ && y.objects == BareApp(y).objects;
  }

  lemma {:induction false} JoinInStep(
      w: Work, v: Work, a: Address, limits: Limits, f: Fragment, g: Fragment, idw: nat, idv: nat, d: bool, pw: set<PacketId>, pv: set<PacketId>, at: int)
    requires Alike(w, v, a) && SameFragment(f, g, a)
    ensures var k := AppKey(a, f.class_);
            InStep(w, v, a, limits, JoinMessage(w, f, idw, k, d, pw, at, limits), JoinMessage(v, g, idv, k, d, pv, at, limits))
  {
    hide Alike, BareFragment, BareApp, EmitIfOpen, Report, Append, Continues, ExtendApp, OpenApp, SameFragment;
    var k := AppKey(a, f.class_);
    SameFragmentFields(f, g, a);
    AppFields(w, v, a, f.class_);
    if f.First() {
      FirstInStep(w, v, a, limits, f, g, idw, idv, d, pw, pv, at);
    } else if k !in w.apps {
      ReportInStep(w, v, a, limits, OrphanFragment, pw, pv, at);
    } else {
      ExtendSame(w.apps[k], v.apps[k], f, g, idw, idv, pw, pv, limits);
      if Continues(w.apps[k], f) {
        if ExtendApp(w.apps[k], f, idw, pw, limits).Ok? {
          StoredInStep(w, v, a, limits, k, ExtendApp(w.apps[k], f, idw, pw, limits).value, ExtendApp(v.apps[k], g, idv, pv, limits).value);
        }
      } else {
        ReportInStep(w, v, a, limits, FragmentGap, pw, pv, at);
        EmitThen(w, v, a, limits, f.class_, false, Report(w, FragmentGap, pw, at, limits), Report(v, FragmentGap, pv, at, limits));
        ReportKeeps(w, FragmentGap, pw, at, limits, k);
        ReportKeeps(v, FragmentGap, pv, at, limits, k);
      }
    }
  }

  /** With a message open, ending it is ending it if it is open. */
  lemma {:induction false} ReportKeeps(w: Work, code: IssueCode, p: set<PacketId>, at: int, limits: Limits, k: AppKey)
    requires k in w.apps
    ensures var r := Report(w, code, p, at, limits);
            r.Ok? ==> k in r.value.apps && EmitIfOpen(r.value, k, false, limits) == Emit(r.value, k, false, limits)
  {
  }

  lemma {:induction false} FirstInStep(
      w: Work, v: Work, a: Address, limits: Limits, f: Fragment, g: Fragment, idw: nat, idv: nat, d: bool, pw: set<PacketId>, pv: set<PacketId>, at: int)
    requires Alike(w, v, a) && SameFragment(f, g, a) && f.First() && g.First()
    ensures var k := AppKey(a, f.class_);
            InStep(w, v, a, limits, JoinMessage(w, f, idw, k, d, pw, at, limits), JoinMessage(v, g, idv, k, d, pv, at, limits))
  {
    hide Alike, EmitIfOpen, Report, Continues, ExtendApp;
    var k := AppKey(a, f.class_);
    var rw, rv := EmitIfOpen(w, k, false, limits), EmitIfOpen(v, k, false, limits);
    EmitInStep(w, v, a, limits, f.class_, false);
    if rw.Ok? && rv.Ok? && Alike(rw.value, rv.value, a) {
      StoredInStep(rw.value, rv.value, a, limits, k, OpenApp(f, idw, d, pw), OpenApp(g, idv, d, pv));
    }
    Then(w, v, a, limits, rw, rv, JoinMessage(w, f, idw, k, d, pw, at, limits), JoinMessage(v, g, idv, k, d, pv, at, limits));
  }

  function WithFragment(w: Work, f: Fragment): Work {
    w.(out := w.out.(fragments := w.out.fragments + [f]))
  }

  lemma {:induction false} PushInStep(w: Work, v: Work, a: Address, limits: Limits, f: Fragment, g: Fragment)
    requires Alike(w, v, a) && SameFragment(f, g, a)
    ensures InStep(w, v, a, limits, Ok(WithFragment(w, f)), Ok(WithFragment(v, g)))
  {
    hide FragmentsOf, MessagesOf, Keyed, SameApp, BareAssembly;
    FragmentsSnoc(w.out.fragments, f, a);
    FragmentsSnoc(v.out.fragments, g, a);
  }

  lemma {:induction false} JoinGrew(w: Work, f: Fragment, id: nat, d: bool, p: set<PacketId>, at: int, limits: Limits)
    ensures var r := JoinMessage(w, f, id, AppKey(f.address, f.class_), d, p, at, limits);
            r.Ok? ==> Grew(w, r.value)
  {
    hide JoinMessage, Confined;
    var r := JoinMessage(w, f, id, AppKey(f.address, f.class_), d, p, at, limits);
    if r.Ok? {
      JoinCases(w, f, id, AppKey(f.address, f.class_), d, p, at, limits);
      ConfinedGrew(w, r.value, f.address);
    }
  }

  /** A fragment is placed in its message and may complete it. */
  function Join(w: Work, f: Fragment, id: nat, d: bool, p: set<PacketId>, at: int, limits: Limits): Result<Work> {
    var k := AppKey(f.address, f.class_);
    match JoinMessage(w, f, id, k, d, p, at, limits)
    case Err(e) => Err(e)
    case Ok(x) => if f.Final() then EmitIfOpen(x, k, true, limits) else Ok(x)
  }

  lemma {:induction false} PlaceInStep(
      w: Work, v: Work, a: Address, limits: Limits, f: Fragment, g: Fragment, idw: nat, idv: nat, d: bool, pw: set<PacketId>, pv: set<PacketId>, at: int)
    requires Alike(w, v, a) && SameFragment(f, g, a)
    ensures InStep(w, v, a, limits, Join(w, f, idw, d, pw, at, limits), Join(v, g, idv, d, pv, at, limits))
    ensures Join(v, g, idv, d, pv, at, limits).Ok? ==> Grew(v, Join(v, g, idv, d, pv, at, limits).value)
  {
    hide Alike, JoinMessage, EmitIfOpen, SameFragment;
    SameFragmentFields(f, g, a);
    var k := AppKey(a, f.class_);
    JoinInStep(w, v, a, limits, f, g, idw, idv, d, pw, pv, at);
    if f.Final() {
      EmitThen(w, v, a, limits, f.class_, true, JoinMessage(w, f, idw, k, d, pw, at, limits), JoinMessage(v, g, idv, k, d, pv, at, limits));
    }
  }

  /** The report, if the function is unknown, and the fragment itself. */
  function Announce(w: Work, f: Fragment, p: set<PacketId>, at: int, limits: Limits): Result<Work> {
    match ReportIf(f.class_ == UnknownClass, w, UnsupportedApplicationFunction, p, at, limits)
    case Err(e) => Err(e)
    case Ok(x) => Ok(WithFragment(x, f))
  }

  lemma {:induction false} AnnounceInStep(w: Work, v: Work, a: Address, limits: Limits, f: Fragment, g: Fragment, pw: set<PacketId>, pv: set<PacketId>, at: int)
    requires Alike(w, v, a) && SameFragment(f, g, a)
    ensures InStep(w, v, a, limits, Announce(w, f, pw, at, limits), Announce(v, g, pv, at, limits))
  {
    hide Alike, SameFragment;
    SameFragmentFields(f, g, a);
    var code := UnsupportedApplicationFunction;
    var rw, rv := ReportIf(f.class_ == UnknownClass, w, code, pw, at, limits), ReportIf(f.class_ == UnknownClass, v, code, pv, at, limits);
    ReportInStep(w, v, a, limits, code, pw, pv, at);
    Stays(w, v, a, limits);
    if rw.Ok? && rv.Ok? && Alike(rw.value, rv.value, a) {
      PushInStep(rw.value, rv.value, a, limits, f, g);
    }
    Then(w, v, a, limits, rw, rv, Announce(w, f, pw, at, limits), Announce(v, g, pv, at, limits));
  }

  lemma {:induction false} AddIs(w: Work, f: Fragment, d: bool, at: int, limits: Limits)
    ensures var p := FramePackets(w.out.frames, f.frames);
            AddFragment(w, f, d, at, limits)
            == if |w.out.fragments| >= limits.maxProtocolMessages then Err(Limit("dnp3_fragments"))
               else match Announce(w, f, p, at, limits)
                    case Err(e) => Err(e)
                    case Ok(x) => Join(x, f, |w.out.fragments|, d, p, at, limits)
  {
    hide FramePackets, JoinMessage, EmitIfOpen, Report;
  }

  lemma {:induction false} AddInStep(w: Work, v: Work, a: Address, limits: Limits, f: Fragment, g: Fragment, d: bool, at: int)
    requires Alike(w, v, a) && SameFragment(f, g, a)
    ensures InStep(w, v, a, limits, AddFragment(w, f, d, at, limits), AddFragment(v, g, d, at, limits))
  {
    hide Alike, SameFragment, FramePackets, Announce, Join, AddFragment, Confined;
    var pw, pv := FramePackets(w.out.frames, f.frames), FramePackets(v.out.frames, g.frames);
    SameFragmentFields(f, g, a);
    AddIs(w, f, d, at, limits);
    AddIs(v, g, d, at, limits);
    AddConfined(v, g, d, at, limits);
    var rw, rv := Announce(w, f, pw, at, limits), Announce(v, g, pv, at, limits);
    AnnounceInStep(w, v, a, limits, f, g, pw, pv, at);
    var jw := match rw case Err(e) => Err(e) case Ok(x) => Join(x, f, |w.out.fragments|, d, pw, at, limits);
    var jv := match rv case Err(e) => Err(e) case Ok(x) => Join(x, g, |v.out.fragments|, d, pv, at, limits);
    if rv.Ok? && jv.Ok? {
      JoinedGrew(rv.value, g, |v.out.fragments|, d, pv, at, limits);
    }
    if rw.Ok? && rv.Ok? && Alike(rw.value, rv.value, a) {
      PlaceInStep(rw.value, rv.value, a, limits, f, g, |w.out.fragments|, |v.out.fragments|, d, pw, pv, at);
    }
    Then(w, v, a, limits, rw, rv, jw, jv);
  }

  lemma {:induction false} JoinedGrew(w: Work, f: Fragment, id: nat, d: bool, p: set<PacketId>, at: int, limits: Limits)
    ensures Join(w, f, id, d, p, at, limits).Ok? ==> Grew(w, Join(w, f, id, d, p, at, limits).value)
  {
    hide JoinMessage, EmitIfOpen;
    var k := AppKey(f.address, f.class_);
    JoinGrew(w, f, id, d, p, at, limits);
    var r := JoinMessage(w, f, id, k, d, p, at, limits);
    if r.Ok? {
      EmitGrew(r.value, k, true, limits);
    }
  }

  // ---------------------------------------------------------------- segments

  ghost predicate AlikeAssembly(t: Assembly, s: Assembly) {
    BareAssembly(t) == BareAssembly(s)
  }

  lemma {:induction false} ParseSame(t: Assembly, s: Assembly, a: Address)
    requires AlikeAssembly(t, s)
    ensures ParseFragment(t, a).Ok? <==> ParseFragment(s, a).Ok?
    ensures ParseFragment(t, a).Ok? ==> SameFragment(ParseFragment(t, a).value, ParseFragment(s, a).value, a)
  {
    hide SliceSpans, ClassOf;
    assert t.bytes == BareAssembly(t).bytes && s.bytes == BareAssembly(s).bytes;
  }

  lemma {:induction false} CompleteInStep(w: Work, v: Work, a: Address, limits: Limits, t: Assembly, s: Assembly, d: bool, at: int)
    requires Alike(w, v, a) && AlikeAssembly(t, s)
    ensures InStep(w, v, a, limits, Complete(w, t, a, d, at, limits), Complete(v, s, a, d, at, limits))
  {
    hide Alike, SameFragment, ParseFragment, Drop, AddFragment, InStep, BareAssembly, Packets;
    var x, u := w.(transport := w.transport - {a}), v.(transport := v.transport - {a});
    ClearedAlike(w, v, a);
    ParseSame(t, s, a);
    if ParseFragment(t, a).Ok? {
      AddInStep(x, u, a, limits, ParseFragment(t, a).value, ParseFragment(s, a).value, d, at);
    } else {
      DropInStep(x, u, a, limits, InvalidApplicationHeader, Packets(t.bytes), Packets(s.bytes), at);
    }
    OnlyTransport(w, v, a, limits, x, u, Complete(w, t, a, d, at, limits), Complete(v, s, a, d, at, limits));
  }

  lemma {:induction false} FinishInStep(w: Work, v: Work, limits: Limits, t: Assembly, s: Assembly, f: Frame, at: int)
    requires Alike(w, v, f.address) && AlikeAssembly(t, s) && f.userData.data != []
    requires |t.frames| <= |w.out.frames| && |s.frames| <= |v.out.frames|
    ensures InStep(w, v, f.address, limits, FinishSegment(w, t, f, at, limits), FinishSegment(v, s, f, at, limits))
  {
    hide Alike, Complete, Last, Grew, Fits, Parallel;
    var a := f.address;
    if Last(f.userData.data[0]) {
      CompleteInStep(w, v, a, limits, t, s, f.Forward(), at);
    } else {
      StoredAlike(w, v, a, t, s);
      Unchanged(w, v, w.(transport := w.transport[a := t]), v.(transport := v.transport[a := s]), limits);
    }
  }

  lemma {:induction false} Unchanged(w: Work, v: Work, x: Work, u: Work, limits: Limits)
    requires x.out == w.out && u.out == v.out
    ensures Grew(v, u) && Parallel(w, v, x, u)
  {
  }

  lemma {:induction false} ExtendsSame(t: Assembly, s: Assembly, data: Evidence, idw: nat, idv: nat, limits: Limits)
    requires AlikeAssembly(t, s) && data.data != [] && |t.frames| < limits.maxProtocolMessages && |s.frames| < limits.maxProtocolMessages
    ensures var x, y := ExtendAssembly(t, data, idw, limits), ExtendAssembly(s, data, idv, limits);
            && (x.Ok? <==> y.Ok?)
            && (x.Ok? ==> AlikeAssembly(x.value, y.value) && |x.value.frames| == |t.frames| + 1 && |y.value.frames| == |s.frames| + 1)
  {
    hide SliceSpans, AppendSpans;
    assert t.bytes == BareAssembly(t).bytes && s.bytes == BareAssembly(s).bytes;
    assert t.seen == BareAssembly(t).seen && s.seen == BareAssembly(s).seen;
    assert t.direction == BareAssembly(t).direction && s.direction == BareAssembly(s).direction;
  }

  lemma {:induction false} OpensSame(data: Evidence, idw: nat, idv: nat, d: bool, limits: Limits)
    requires data.data != []
    ensures var x, y := OpenAssembly(data, idw, d, limits), OpenAssembly(data, idv, d, limits);
            && (x.Ok? <==> y.Ok?) && (x.Ok? ==> AlikeAssembly(x.value, y.value) && |x.value.frames| == 1 == |y.value.frames|)
  {
    hide SliceSpans;
  }

  /** The frame has just been pushed, so no assembly of the address has used them all. */
  ghost predicate Pushed(w: Work, a: Address, limits: Limits) {
    && 0 < |w.out.frames| <= limits.maxProtocolMessages
    && (a in w.transport ==> |w.transport[a].frames| < |w.out.frames|)
  }

  lemma {:induction false} AssemblyFields(w: Work, v: Work, a: Address)
    requires Alike(w, v, a)
    ensures a in w.transport <==> a in v.transport
    ensures a in w.transport ==>
              && AlikeAssembly(w.transport[a], v.transport[a]) && w.transport[a].seen == v.transport[a].seen
              && w.transport[a].lastSequence == v.transport[a].lastSequence && w.transport[a].bytes == v.transport[a].bytes
              && w.transport[a].direction == v.transport[a].direction
  {
    hide SameApps, SamePutOut;
    if a in w.transport {
      var t, s := BareAssembly(w.transport[a]), BareAssembly(v.transport[a]);
      assert t.seen == w.transport[a].seen && s.seen == v.transport[a].seen;
      assert t.lastSequence == w.transport[a].lastSequence && s.lastSequence == v.transport[a].lastSequence;
      assert t.bytes == w.transport[a].bytes && s.bytes == v.transport[a].bytes;
      assert t.direction == w.transport[a].direction && s.direction == v.transport[a].direction;
    }
  }

  lemma {:induction false} RepeatInStep(w: Work, v: Work, limits: Limits, f: Frame, idw: nat, idv: nat, at: int)
    requires Alike(w, v, f.address) && Pushed(w, f.address, limits) && Pushed(v, f.address, limits)
    requires f.address in w.transport && f.address in v.transport && f.userData.data != []
    ensures InStep(w, v, f.address, limits, RepeatSegment(w, f, idw, at, limits), RepeatSegment(v, f, idv, at, limits))
  {
    hide Alike, Report, InStep, Packets;
    var a := f.address;
    AssemblyFields(w, v, a);
    var t, s := w.transport[a], v.transport[a];
    var x, u := w.(transport := w.transport[a := t.(frames := t.frames + [idw])]), v.(transport := v.transport[a := s.(frames := s.frames + [idv])]);
    StoredAlike(w, v, a, t.(frames := t.frames + [idw]), s.(frames := s.frames + [idv]));
    var code := if t.lastSequence == Sequence(f.userData.data[0]) then DuplicateSegment else ReorderedDuplicate;
    ReportInStep(x, u, a, limits, code, Packets(f.userData), Packets(f.userData), at);
    OnlyTransport(w, v, a, limits, x, u, RepeatSegment(w, f, idw, at, limits), RepeatSegment(v, f, idv, at, limits));
  }

  /** Whatever was open is dropped before a segment with FIR. */
  function Restarted(w: Work, f: Frame, at: int, limits: Limits): Result<Work> {
    if f.address in w.transport then Drop(w, f.address, RestartBeforeFin, Packets(w.transport[f.address].bytes), at, limits) else Ok(w)
  }

  lemma {:induction false} RestartedPushed(w: Work, f: Frame, at: int, limits: Limits)
    ensures Restarted(w, f, at, limits).Ok? ==> Restarted(w, f, at, limits).value.out.frames == w.out.frames
  {
    hide Drop, Packets, KeysOf, ClosingAll;
    if f.address in w.transport {
      DropDiscards(w, f.address, RestartBeforeFin, Packets(w.transport[f.address].bytes), at, limits);
    }
  }

  lemma {:induction false} BeginInStep(w: Work, v: Work, limits: Limits, f: Frame, idw: nat, idv: nat, at: int)
    requires Alike(w, v, f.address) && Pushed(w, f.address, limits) && Pushed(v, f.address, limits) && f.userData.data != []
    ensures InStep(w, v, f.address, limits, BeginSegment(w, f, idw, at, limits), BeginSegment(v, f, idv, at, limits))
  {
    hide Alike, Drop, OpenAssembly, FinishSegment, Packets, AlikeAssembly, Confined;
    var a := f.address;
    AssemblyFields(w, v, a);
    var rw, rv := Restarted(w, f, at, limits), Restarted(v, f, at, limits);
    if a in w.transport {
      DropInStep(w, v, a, limits, RestartBeforeFin, Packets(w.transport[a].bytes), Packets(v.transport[a].bytes), at);
    } else {
      Stays(w, v, a, limits);
    }
    RestartedPushed(w, f, at, limits);
    RestartedPushed(v, f, at, limits);
    OpensSame(f.userData, idw, idv, f.Forward(), limits);
    var tw, tv := OpenAssembly(f.userData, idw, f.Forward(), limits), OpenAssembly(f.userData, idv, f.Forward(), limits);
    if rv.Ok? && tv.Ok? {
      FinishGrew(rv.value, tv.value, f, at, limits);
      if rw.Ok? && Alike(rw.value, rv.value, a) {
        FinishInStep(rw.value, rv.value, limits, tw.value, tv.value, f, at);
      }
    }
    Then(w, v, a, limits, rw, rv, BeginSegment(w, f, idw, at, limits), BeginSegment(v, f, idv, at, limits));
  }

  lemma {:induction false} FinishGrew(w: Work, t: Assembly, f: Frame, at: int, limits: Limits)
    requires f.userData.data != []
    ensures FinishSegment(w, t, f, at, limits).Ok? ==> Grew(w, FinishSegment(w, t, f, at, limits).value)
  {
    hide FinishSegment, Confined;
    FinishEffect(w, t, f, at, limits);
    if FinishSegment(w, t, f, at, limits).Ok? {
      ConfinedGrew(w, FinishSegment(w, t, f, at, limits).value, f.address);
    }
  }

  lemma {:induction false} SegmentInStep(w: Work, v: Work, limits: Limits, f: Frame, idw: nat, idv: nat, at: int)
    requires Alike(w, v, f.address) && Pushed(w, f.address, limits) && Pushed(v, f.address, limits) && f.userData.data != []
    ensures InStep(w, v, f.address, limits, Segment(w, f, idw, at, limits), Segment(v, f, idv, at, limits))
  {
    hide Alike, InStep, Drop, RepeatSegment, BeginSegment, ExtendAssembly, FinishSegment, Packets, First, AlikeAssembly, Sequence, NextSegment;
    var a, data := f.address, f.userData.data;
    AssemblyFields(w, v, a);
    var open := a in w.transport;
    if open && Seen(w.transport[a], data) && w.transport[a].seen[Sequence(data[0])] == data {
      RepeatInStep(w, v, limits, f, idw, idv, at);
    } else if open && !First(data[0]) && Seen(w.transport[a], data) {
      var p := Packets(w.transport[a].bytes) + Packets(f.userData);
      DropInStep(w, v, a, limits, ConflictingDuplicate, p, p, at);
    } else if First(data[0]) {
      BeginInStep(w, v, limits, f, idw, idv, at);
    } else if !open {
      DropInStep(w, v, a, limits, OrphanSegment, Packets(f.userData), Packets(f.userData), at);
    } else if Sequence(data[0]) != NextSegment(w.transport[a].lastSequence) {
      var p := Packets(w.transport[a].bytes) + Packets(f.userData);
      DropInStep(w, v, a, limits, SegmentGap, p, p, at);
    } else {
      ExtendsSame(w.transport[a], v.transport[a], f.userData, idw, idv, limits);
      var t, s := ExtendAssembly(w.transport[a], f.userData, idw, limits), ExtendAssembly(v.transport[a], f.userData, idv, limits);
      if s.Ok? {
        FinishInStep(w, v, limits, t.value, s.value, f, at);
      } else {
        FailsInStep(w, v, a, limits, Segment(w, f, idw, at, limits), Segment(v, f, idv, at, limits));
      }
    }
  }

  lemma {:induction false} FailsInStep(w: Work, v: Work, a: Address, limits: Limits, rw: Result<Work>, rv: Result<Work>)
    requires rv.Err?
    ensures InStep(w, v, a, limits, rw, rv)
  {
  }

  // ---------------------------------------------------------------- frames

  lemma {:induction false} DirectionSame(w: Work, v: Work, a: Address, d: bool)
    requires Alike(w, v, a)
    ensures DirectionDiffers(w, a, d) <==> DirectionDiffers(v, a, d)
  {
    hide FragmentsOf, MessagesOf, Keyed;
    AssemblyFields(w, v, a);
    forall c: Class ensures AppKey(a, c) in w.apps <==> AppKey(a, c) in v.apps
      ensures AppKey(a, c) in w.apps ==> w.apps[AppKey(a, c)].direction == v.apps[AppKey(a, c)].direction
    {
      assert SameApp(w.apps, v.apps, AppKey(a, c));
      if AppKey(a, c) in w.apps {
        assert BareApp(w.apps[AppKey(a, c)]).direction == w.apps[AppKey(a, c)].direction;
        assert BareApp(v.apps[AppKey(a, c)]).direction == v.apps[AppKey(a, c)].direction;
      }
    }
  }

  /** Open state of the other direction is dropped first. */
  function Turned(w: Work, f: Frame, at: int, limits: Limits): Result<Work> {
    if DirectionDiffers(w, f.address, f.Forward()) then Drop(w, f.address, DirectionChanged, Packets(f.userData), at, limits) else Ok(w)
  }

  lemma {:induction false} TurnedPushed(w: Work, f: Frame, at: int, limits: Limits)
    requires Pushed(w, f.address, limits)
    ensures Turned(w, f, at, limits).Ok? ==> Pushed(Turned(w, f, at, limits).value, f.address, limits)
  {
    hide Drop, Packets, KeysOf, ClosingAll, DirectionDiffers;
    if DirectionDiffers(w, f.address, f.Forward()) {
      DropDiscards(w, f.address, DirectionChanged, Packets(f.userData), at, limits);
    }
  }

  lemma {:induction false} SegmentGrew(w: Work, f: Frame, id: nat, at: int, limits: Limits)
    requires f.userData.data != []
    ensures Segment(w, f, id, at, limits).Ok? ==> Grew(w, Segment(w, f, id, at, limits).value)
  {
    hide Segment, Confined, Repeat, NextInLine, Discarded, Waiting, First, Last;
    if Segment(w, f, id, at, limits).Ok? {
      SegmentCases(w, f, id, at, limits);
      ConfinedGrew(w, Segment(w, f, id, at, limits).value, f.address);
    }
  }

  lemma {:induction false} InterpretInStep(w: Work, v: Work, limits: Limits, f: Frame, idw: nat, idv: nat, at: int, problem: Option<nat>)
    requires Alike(w, v, f.address) && Pushed(w, f.address, limits) && Pushed(v, f.address, limits)
    ensures InStep(w, v, f.address, limits, Interpret(w, f, idw, at, limits, problem), Interpret(v, f, idv, at, limits, problem))
  {
    hide Alike, InStep, Drop, Segment, Packets, DirectionDiffers, Pushed, Grew;
    var a := f.address;
    if problem.Some? {
      DropInStep(w, v, a, limits, LinkIssue(problem.value), Packets(f.raw), Packets(f.raw), at);
    } else if f.userData.data == [] {
      Stays(w, v, a, limits);
    } else if !f.CarriesUserData() {
      DropInStep(w, v, a, limits, UnsupportedFunctionWithData, Packets(f.userData), Packets(f.userData), at);
    } else {
      DirectionSame(w, v, a, f.Forward());
      var rw, rv := Turned(w, f, at, limits), Turned(v, f, at, limits);
      if DirectionDiffers(w, a, f.Forward()) {
        DropInStep(w, v, a, limits, DirectionChanged, Packets(f.userData), Packets(f.userData), at);
      } else {
        Stays(w, v, a, limits);
      }
      TurnedPushed(w, f, at, limits);
      TurnedPushed(v, f, at, limits);
      if rv.Ok? {
        SegmentGrew(rv.value, f, idv, at, limits);
        if rw.Ok? && Alike(rw.value, rv.value, a) {
          SegmentInStep(rw.value, rv.value, limits, f, idw, idv, at);
        }
      }
      Then(w, v, a, limits, rw, rv, Interpret(w, f, idw, at, limits, problem), Interpret(v, f, idv, at, limits, problem));
    }
  }

  lemma {:induction false} PushAlike(w: Work, v: Work, f: Frame)
    requires Alike(w, v, f.address)
    ensures Alike(PushFrame(w, f), PushFrame(v, f), f.address)
  {
    hide FragmentsOf, MessagesOf, Keyed, SameApp, BareAssembly;
  }

  lemma {:induction false} PushedNow(w: Work, v: Work, f: Frame, limits: Limits)
    requires Alike(w, v, f.address) && |w.out.frames| < limits.maxProtocolMessages && |v.out.frames| < limits.maxProtocolMessages
    ensures Pushed(PushFrame(w, f), f.address, limits) && Pushed(PushFrame(v, f), f.address, limits)
  {
    hide FragmentsOf, MessagesOf, Keyed, SameApp, BareAssembly;
  }

  /** What a frame reports about itself before its data is looked at. */
  function Remarked(w: Work, f: Frame, at: int, limits: Limits): Result<Work> {
    match ReportIf(f.ReservedBit(), w, ReservedControlBit, Packets(f.raw), at, limits)
    case Err(e) => Err(e)
    case Ok(x) => ReportIf(f.UnknownFunction(), x, UnsupportedLinkFunction, Packets(f.raw), at, limits)
  }

  lemma {:induction false} RemarkedInStep(w: Work, v: Work, limits: Limits, f: Frame, at: int)
    requires Alike(w, v, f.address)
    ensures InStep(w, v, f.address, limits, Remarked(w, f, at, limits), Remarked(v, f, at, limits))
  {
    hide Alike, Packets;
    var a, p := f.address, Packets(f.raw);
    var rw, rv := ReportIf(f.ReservedBit(), w, ReservedControlBit, p, at, limits), ReportIf(f.ReservedBit(), v, ReservedControlBit, p, at, limits);
    ReportInStep(w, v, a, limits, ReservedControlBit, p, p, at);
    Stays(w, v, a, limits);
    if rw.Ok? && rv.Ok? && Alike(rw.value, rv.value, a) {
      ReportInStep(rw.value, rv.value, a, limits, UnsupportedLinkFunction, p, p, at);
      Stays(rw.value, rv.value, a, limits);
    }
    Then(w, v, a, limits, rw, rv, Remarked(w, f, at, limits), Remarked(v, f, at, limits));
  }

  lemma {:induction false} RemarkedFrames(w: Work, f: Frame, at: int, limits: Limits)
    ensures Remarked(w, f, at, limits).Ok? ==> Remarked(w, f, at, limits).value == w.(out := w.out.(issues := Remarked(w, f, at, limits).value.out.issues))
  {
    hide Packets;
  }

  lemma {:induction false} InterpretGrew(w: Work, f: Frame, id: nat, at: int, limits: Limits, problem: Option<nat>)
    ensures Interpret(w, f, id, at, limits, problem).Ok? ==> Grew(w, Interpret(w, f, id, at, limits, problem).value)
  {
    hide Interpret, Confined;
    InterpretConfined(w, f, id, at, limits, problem);
    if Interpret(w, f, id, at, limits, problem).Ok? {
      ConfinedGrew(w, Interpret(w, f, id, at, limits, problem).value, f.address);
    }
  }

  lemma {:induction false} PushedStep(w: Work, v: Work, f: Frame, limits: Limits, rw: Result<Work>, rv: Result<Work>)
    requires InStep(PushFrame(w, f), PushFrame(v, f), f.address, limits, rw, rv) && (rv.Ok? ==> Grew(PushFrame(v, f), rv.value))
    ensures InStep(w, v, f.address, limits, rw, rv)
  {
    hide Alike;
  }

  /** One frame of the address pair keeps the two runs in step. */
  lemma {:induction false} AcceptInStep(w: Work, v: Work, limits: Limits, f: Frame, at: int, rules: LinkRules)
    requires Alike(w, v, f.address) && |w.out.frames| < limits.maxProtocolMessages
    ensures InStep(w, v, f.address, limits, AcceptFrame(w, f, at, limits, rules), AcceptFrame(v, f, at, limits, rules))
  {
    hide Alike, InStep, Interpret, Packets, Report, Pushed, Grew;
    var a := f.address;
    var rw, rv := Remarked(w, f, at, limits), Remarked(v, f, at, limits);
    var problem := rules(f.control, a.source, a.destination, |f.userData.data|);
    RemarkedInStep(w, v, limits, f, at);
    RemarkedFrames(w, f, at, limits);
    RemarkedFrames(v, f, at, limits);
    if |v.out.frames| >= limits.maxProtocolMessages {
      FailsInStep(w, v, a, limits, AcceptFrame(w, f, at, limits, rules), AcceptFrame(v, f, at, limits, rules));
      return;
    }
    if rv.Ok? {
      var u := PushFrame(rv.value, f);
      InterpretGrew(u, f, |v.out.frames|, at, limits, problem);
      PushGrew(rv.value, f, AcceptFrame(v, f, at, limits, rules));
      if rw.Ok? && Alike(rw.value, rv.value, a) {
        var x := PushFrame(rw.value, f);
        PushAlike(rw.value, rv.value, f);
        PushedNow(rw.value, rv.value, f, limits);
        InterpretInStep(x, u, limits, f, |w.out.frames|, |v.out.frames|, at, problem);
        PushedStep(rw.value, rv.value, f, limits, Interpret(x, f, |w.out.frames|, at, limits, problem), Interpret(u, f, |v.out.frames|, at, limits, problem));
      }
    }
    Then(w, v, a, limits, rw, rv, AcceptFrame(w, f, at, limits, rules), AcceptFrame(v, f, at, limits, rules));
  }

  lemma {:induction false} PushGrew(w: Work, f: Frame, r: Result<Work>)
    requires r.Ok? ==> Grew(PushFrame(w, f), r.value)
    ensures r.Ok? ==> Grew(w, r.value)
  {
  }

  // ---------------------------------------------------------------- other frames, and whole runs

  lemma {:induction false} NoneNew(ms: seq<Message>, more: seq<Message>, a: Address)
    requires Extends(ms, more) && forall i | |ms| <= i < |more| :: more[i].address != a
    ensures MessagesOf(more, a) == MessagesOf(ms, a)
  {
    if |more| == |ms| {
      assert more == ms;
    } else {
      assert more[..|more| - 1][..|ms|] == ms;
      NoneNew(ms, more[..|more| - 1], a);
    }
  }

  lemma {:induction false} NoFragmentsNew(fs: seq<Fragment>, more: seq<Fragment>, a: Address)
    requires Extends(fs, more) && forall i | |fs| <= i < |more| :: more[i].address != a
    ensures FragmentsOf(more, a) == FragmentsOf(fs, a)
  {
    if |more| == |fs| {
      assert more == fs;
    } else {
      assert more[..|more| - 1][..|fs|] == fs;
      NoFragmentsNew(fs, more[..|more| - 1], a);
    }
  }

  /** What is confined to one address pair goes unnoticed by another. */
  lemma {:induction false} OtherAlike(w: Work, u: Work, v: Work, a: Address, b: Address)
    requires Alike(w, v, a) && Confined(w, u, b) && a != b
    ensures Alike(u, v, a)
  {
    hide FragmentsOf, MessagesOf, Keyed, KeysOf, BareAssembly, BareApp;
    NoneNew(w.out.messages, u.out.messages, a);
    NoFragmentsNew(w.out.fragments, u.out.fragments, a);
    assert (u.transport - {b}).Keys == u.transport.Keys - {b} && (w.transport - {b}).Keys == w.transport.Keys - {b};
    OthersKept(w.transport, u.transport, a, b);
    forall c: Class ensures SameApp(u.apps, v.apps, AppKey(a, c)) {
      assert SameApp(w.apps, v.apps, AppKey(a, c));
      KeysExact(b, AppKey(a, c));
      AppsKept(w.apps, u.apps, AppKey(a, c), KeysOf(b));
    }
  }

  lemma {:induction false} OthersKept(w: map<Address, Assembly>, u: map<Address, Assembly>, a: Address, b: Address)
    requires u - {b} == w - {b} && a != b
    ensures (a in u <==> a in w) && (a in u ==> u[a] == w[a])
  {
    assert a in u <==> a in u - {b};
    assert a in w <==> a in w - {b};
    assert a in u ==> (u - {b})[a] == u[a];
    assert a in w ==> (w - {b})[a] == w[a];
  }

  lemma {:induction false} AppsKept(w: map<AppKey, App>, u: map<AppKey, App>, k: AppKey, keys: set<AppKey>)
    requires u - keys == w - keys && k !in keys
    ensures (k in u <==> k in w) && (k in u ==> u[k] == w[k])
  {
    assert k in u <==> k in u - keys;
    assert k in w <==> k in w - keys;
    assert k in u ==> (u - keys)[k] == u[k];
    assert k in w ==> (w - keys)[k] == w[k];
  }

  lemma {:induction false} FreshAlike(a: Address)
    ensures Alike(FRESH, FRESH, a)
  {
  }

  /** The address pair's own frames among the first k. */
  function Own(fs: seq<Frame>, a: Address, k: nat): seq<Frame>
    requires k <= |fs|
  {
    if k == 0 then [] else Own(fs, a, k - 1) + if fs[k - 1].address == a then [fs[k - 1]] else []
  }

  /** The first run has not put out more than the second. */
  ghost predicate Behind(w: Work, v: Work) {
    && |w.out.frames| <= |v.out.frames| && |w.out.fragments| <= |v.out.fragments|
    && |w.out.messages| <= |v.out.messages| && |w.out.issues| <= |v.out.issues|
  }

  lemma {:induction false} BehindSteps(w: Work, v: Work, a: Address, limits: Limits, rw: Result<Work>, rv: Result<Work>)
    requires Behind(w, v) && InStep(w, v, a, limits, rw, rv) && rv.Ok?
    ensures rw.Ok? && Alike(rw.value, rv.value, a) && Behind(rw.value, rv.value)
  {
    hide Alike;
  }

  lemma {:induction false} AcceptSnoc(w: Work, fs: seq<Frame>, f: Frame, base: int, limits: Limits, rules: LinkRules)
    ensures AcceptAll(w, fs + [f], base, limits, rules, |fs| + 1)
            == match AcceptAll(w, fs, base, limits, rules, |fs|)
               case Err(e) => Err(e)
               case Ok(x) => AcceptFrame(x, f, base + f.start, limits, rules)
  {
    hide AcceptFrame;
    AcceptFront(w, fs, [f], base, limits, rules, |fs|);
  }

  /**
   Whatever frames of whatever address pairs a run accepts, each pair ends as if its own frames had been
   alone: the same open assembly and messages, the same fragments and messages put out.
   */
  lemma {:induction false} Isolated(fs: seq<Frame>, a: Address, base: int, limits: Limits, rules: LinkRules, k: nat)
    requires k <= |fs| && AcceptAll(FRESH, fs, base, limits, rules, k).Ok?
    ensures var own := Own(fs, a, k);
            var alone := AcceptAll(FRESH, own, base, limits, rules, |own|);
            && alone.Ok? && Alike(alone.value, AcceptAll(FRESH, fs, base, limits, rules, k).value, a)
            && Behind(alone.value, AcceptAll(FRESH, fs, base, limits, rules, k).value)
  {
    hide AcceptFrame, Alike, InStep, Confined;
    if k == 0 {
      FreshAlike(a);
    } else {
      Isolated(fs, a, base, limits, rules, k - 1);
      var f, own := fs[k - 1], Own(fs, a, k - 1);
      var v := AcceptAll(FRESH, fs, base, limits, rules, k - 1).value;
      var w := AcceptAll(FRESH, own, base, limits, rules, |own|).value;
      var rv := AcceptFrame(v, f, base + f.start, limits, rules);
      AcceptRoom(v, f, base + f.start, limits, rules);
      if f.address == a {
        AcceptInStep(w, v, limits, f, base + f.start, rules);
        BehindSteps(w, v, a, limits, AcceptFrame(w, f, base + f.start, limits, rules), rv);
        AcceptSnoc(FRESH, own, f, base, limits, rules);
      } else {
        AcceptConfined(v, f, base + f.start, limits, rules);
        AlikeSymmetric(w, v, a);
        OtherAlike(v, rv.value, w, a, f.address);
        AlikeSymmetric(rv.value, w, a);
        ConfinedGrew(v, rv.value, f.address);
        assert own + [] == own;
      }
    }
  }

  lemma {:induction false} AcceptRoom(w: Work, f: Frame, at: int, limits: Limits, rules: LinkRules)
    ensures AcceptFrame(w, f, at, limits, rules).Ok? ==> |w.out.frames| < limits.maxProtocolMessages
  {
    hide Interpret, Report, Packets;
  }
}
