/** What a completed datagram owes to the fragments that were pushed, over every run and with no condition on them. */
module FragmentHistory {
  import opened Common
  import opened Provenance
  import opened FragmentSets
  import opened FragmentParts
  import opened FragmentSafety
  import opened FragmentRuns
  import opened FragmentOrder

  // ---------------------------------------------------------------- a set and the fragments it accepted

  function PartsOf(hs: seq<Datagram>): (ps: seq<Part>)
    requires AllFragments(hs)
    ensures |ps| == |hs| && forall i | 0 <= i < |hs| :: ps[i] == PartOf(hs[i])
  {
    seq(|hs|, i requires 0 <= i < |hs| => PartOf(hs[i]))
  }

  /** The latest fragment at offset zero. */
  ghost predicate OwnsHeader(hs: seq<Datagram>, i: int)
    requires AllFragments(hs)
  {
    && 0 <= i < |hs| && hs[i].fragment.value.offset == 0
    && forall j | i < j < |hs| :: hs[j].fragment.value.offset != 0
  }

  ghost predicate HeaderFrom(t: Datagram, hs: seq<Datagram>)
    requires AllFragments(hs)
  {
    forall i | OwnsHeader(hs, i) :: t.protocol == hs[i].protocol && t.headerLength == hs[i].headerLength
  }

  /** The terminal length is the end of every fragment without more to follow. */
  ghost predicate TerminalFrom(end: Option<nat>, hs: seq<Datagram>)
    requires AllFragments(hs)
  {
    && (forall i | 0 <= i < |hs| && !PartOf(hs[i]).more :: end == Some(PartOf(hs[i]).End()))
    && (end.Some? ==> exists i | 0 <= i < |hs| :: !PartOf(hs[i]).more)
  }

  ghost predicate OfFlow(t: Datagram, k: Key) {
    t.scope == k.scope && t.source == k.source && t.destination == k.destination && t.ipv6 == k.ipv6
  }

  ghost predicate AllKeyed(hs: seq<Datagram>, k: Key) {
    AllFragments(hs) && forall i | 0 <= i < |hs| :: KeyFor(hs[i], hs[i].fragment.value) == k
  }

  ghost function PacketsOf(hs: seq<Datagram>, n: nat): set<PacketId>
    requires n <= |hs|
  {
    if n == 0 then {} else PacketsOf(hs, n - 1) + Packets(hs[n - 1].payload)
  }

  /** A set that is not quarantined holds exactly the parts of these fragments, and their header. */
  ghost predicate Explains(s: FragmentSet, k: Key, hs: seq<Datagram>) {
    && AllKeyed(hs, k) && multiset(s.parts) == multiset(PartsOf(hs))
    && HeaderFrom(s.template, hs) && TerminalFrom(s.end, hs) && OfFlow(s.template, k)
    && s.packets == PacketsOf(hs, |hs|)
  }

  lemma {:induction false} FreshExplains(d: Datagram, frame: nat, k: Key)
    requires d.fragment.Some? && k == KeyFor(d, d.fragment.value)
    ensures Explains(NewSet(d, frame), k, [])
  {
  }

  lemma {:induction false} HeaderNext(t: Datagram, hs: seq<Datagram>, d: Datagram)
    requires AllFragments(hs) && d.fragment.Some? && HeaderFrom(t, hs)
    ensures AllFragments(hs + [d]) && HeaderFrom(TemplateAfter(t, d, d.fragment.value.offset), hs + [d])
  {
    var more := hs + [d];
    forall i | OwnsHeader(more, i)
      ensures TemplateAfter(t, d, d.fragment.value.offset).protocol == more[i].protocol
      ensures TemplateAfter(t, d, d.fragment.value.offset).headerLength == more[i].headerLength
    {
      if i < |hs| {
        assert more[|hs|].fragment.value.offset != 0;
        forall j | i < j < |hs| ensures hs[j].fragment.value.offset != 0 {
          assert more[j] == hs[j];
        }
        assert OwnsHeader(hs, i);
      }
    }
  }

  lemma {:induction false} TerminalNext(s: FragmentSet, hs: seq<Datagram>, d: Datagram)
    requires AllFragments(hs) && d.fragment.Some? && TerminalFrom(s.end, hs)
    requires Verdict(s, PartOf(d), d.ipv6).None?
    ensures AllFragments(hs + [d]) && TerminalFrom(EndAfter(s, PartOf(d)), hs + [d])
  {
    hide Overlap, Agree;
    var more, p := hs + [d], PartOf(d);
    NoTerminalConflict(s, p, d.ipv6);
    if EndAfter(s, p).Some? {
      if p.more {
        var i :| 0 <= i < |hs| && !PartOf(hs[i]).more;
        assert !PartOf(more[i]).more;
      } else {
        assert !PartOf(more[|hs|]).more;
      }
    }
  }

  lemma {:induction false} NoTerminalConflict(s: FragmentSet, p: Part, ipv6: bool)
    requires Verdict(s, p, ipv6).None?
    ensures !p.more && s.end.Some? ==> s.end.value == p.End()
  {
    hide OverlapVerdict, Overlap, Agree;
    var first := if !p.more && s.end.Some? && s.end.value != p.End() then Some(ConflictingTerminal) else None;
    var end := EndAfter(s, p);
    var second :=
      if end.Some? && (Outside(p, end.value) || exists i | 0 <= i < |s.parts| :: Outside(s.parts[i], end.value))
      then Some(OutsideTerminal) else first;
    OverlapVerdictNone(s.parts, p, ipv6, |s.parts|, second);
  }

  lemma {:induction false} InsertMultiset(parts: seq<Part>, p: Part)
    ensures multiset(Insert(parts, p)) == multiset(parts) + multiset{p}
  {
    hide InsertAt;
    var k := InsertAt(parts, p.start);
    assert parts == parts[..k] + parts[k..];
  }

  lemma {:induction false} PartsSnoc(hs: seq<Datagram>, d: Datagram)
    requires AllFragments(hs) && d.fragment.Some?
    ensures AllFragments(hs + [d]) && PartsOf(hs + [d]) == PartsOf(hs) + [PartOf(d)]
  {
  }

  lemma {:induction false} PacketsSnoc(hs: seq<Datagram>, d: Datagram, n: nat)
    requires n <= |hs|
    ensures PacketsOf(hs + [d], n) == PacketsOf(hs, n)
    ensures PacketsOf(hs + [d], |hs| + 1) == PacketsOf(hs + [d], |hs|) + Packets(d.payload)
  {
    hide Packets;
    if n > 0 {
      PacketsSnoc(hs, d, n - 1);
    }
  }

  /** A fragment that is not refused joins the history of its set. */
  lemma {:induction false} OfferExplains(s: FragmentSet, k: Key, hs: seq<Datagram>, d: Datagram)
    requires Explains(s, k, hs) && d.fragment.Some? && KeyFor(d, d.fragment.value) == k
    ensures var step := Offer(s, d, d.fragment.value, s.packets + Packets(d.payload));
            !step.SetRejected? ==> Explains(step.set_, k, hs + [d])
  {
    hide Insert, Verdict, TemplateAfter, EndAfter, Packets, Overhead, Cursor, HeaderFrom, TerminalFrom, PartsOf, PacketsOf;
    var step := Offer(s, d, d.fragment.value, s.packets + Packets(d.payload));
    if !step.SetRejected? {
      var s1 := s.(packets := s.packets + Packets(d.payload));
      var p := PartOf(d);
      HeaderNext(s.template, hs, d);
      TerminalNext(s1, hs, d);
      InsertMultiset(s.parts, p);
      PartsSnoc(hs, d);
      PacketsSnoc(hs, d, |hs|);
      FlowKept(s.template, k, d);
    }
  }

  lemma {:induction false} FlowKept(t: Datagram, k: Key, d: Datagram)
    requires OfFlow(t, k) && d.fragment.Some?
    ensures OfFlow(TemplateAfter(t, d, d.fragment.value.offset), k)
  {
  }

  // ---------------------------------------------------------------- a completed datagram

  /** The payload repeats the fragment's byte at position x. */
  ghost predicate Repeats(payload: Evidence, h: Datagram, x: int)
    requires h.fragment.Some?
  {
    Holds(PartOf(h), x) ==> 0 <= x < |payload.data| && payload.data[x] == h.payload.data[x - PartOf(h).start]
  }

  /** Some fragment gave the byte at x together with its origin. */
  ghost predicate GivenBy(payload: Evidence, hs: seq<Datagram>, x: int)
    requires AllFragments(hs)
  {
    exists i | 0 <= i < |hs| ::
      Holds(PartOf(hs[i]), x) && Valid(payload) && Valid(hs[i].payload) && 0 <= x < |payload.data|
      && At(payload, x) == At(hs[i].payload, x - PartOf(hs[i]).start)
  }

  /**
   Everything a completed datagram is: of its fragments' flow; as long as every terminal fragment says;
   equal to every fragment at every position it holds; each byte with the origin some fragment gave it;
   protocol and header length of the latest offset-zero fragment; and all their packets.
   */
  ghost predicate CompletedFrom(dg: Datagram, packets: set<PacketId>, k: Key, hs: seq<Datagram>) {
    && AllKeyed(hs, k) && OfFlow(dg, k) && dg.fragment == None && packets == PacketsOf(hs, |hs|)
    && Valid(dg.payload) && TerminalFrom(Some(|dg.payload.data|), hs)
    && (exists i :: OwnsHeader(hs, i)) && HeaderFrom(dg, hs)
    && (forall i, x | 0 <= i < |hs| && Holds(PartOf(hs[i]), x) :: Repeats(dg.payload, hs[i], x))
    && (forall x | 0 <= x < |dg.payload.data| :: GivenBy(dg.payload, hs, x))
  }

  lemma {:induction false} PartPlace(s: FragmentSet, hs: seq<Datagram>, i: int) returns (j: int)
    requires AllFragments(hs) && multiset(s.parts) == multiset(PartsOf(hs)) && 0 <= i < |hs|
    ensures 0 <= j < |s.parts| && s.parts[j] == PartOf(hs[i])
  {
    assert PartsOf(hs)[i] in multiset(PartsOf(hs));
    assert PartOf(hs[i]) in s.parts;
    j :| 0 <= j < |s.parts| && s.parts[j] == PartOf(hs[i]);
  }

  lemma {:induction false} PartSource(s: FragmentSet, hs: seq<Datagram>, j: int) returns (i: int)
    requires AllFragments(hs) && multiset(s.parts) == multiset(PartsOf(hs)) && 0 <= j < |s.parts|
    ensures 0 <= i < |hs| && s.parts[j] == PartOf(hs[i])
  {
    assert s.parts[j] in multiset(s.parts);
    assert s.parts[j] in PartsOf(hs);
    i :| 0 <= i < |hs| && PartsOf(hs)[i] == s.parts[j];
  }

  /** The last offset-zero fragment, if there is one at all. */
  lemma {:induction false} SomeOwner(hs: seq<Datagram>, i: int) returns (m: int)
    requires AllFragments(hs) && 0 <= i < |hs| && hs[i].fragment.value.offset == 0
    ensures OwnsHeader(hs, m)
    decreases |hs| - i
  {
    if j :| i < j < |hs| && hs[j].fragment.value.offset == 0 {
      m := SomeOwner(hs, j);
    } else {
      m := i;
    }
  }

  lemma {:induction false} FirstPartAtZero(parts: seq<Part>)
    requires Contiguous(parts, |parts|) && parts != []
    ensures parts[0].start == 0
  {
    assert Reach(parts, 0) == 0;
    assert parts[0].start <= Reach(parts, 0);
  }

  /** A ready set turns into a datagram that is exactly what its fragments say. */
  lemma {:induction false} ReadyCompletes(s: FragmentSet, k: Key, hs: seq<Datagram>)
    requires ReadyOk(s, k.ipv6) && Explains(s, k, hs) && hs != []
    ensures CompletedFrom(s.template.(payload := Joined(s.parts, |s.parts|), fragment := None), s.packets, k, hs)
  {
    hide PartsOk, SortedParts, AllCompatible, Contiguous, Reach, EndConsistent, Overhead, HeaderFrom, TerminalFrom, PacketsOf, PartsOf, Tiled, Joined, At;
    var dg := s.template.(payload := Joined(s.parts, |s.parts|), fragment := None);
    CompletedPayload(s, k.ipv6);
    ReadyStart(s, k, hs);
    HeaderAlike(s.template, dg, hs);
    forall i, x | 0 <= i < |hs| && Holds(PartOf(hs[i]), x) ensures Repeats(dg.payload, hs[i], x) {
      var j := PartPlace(s, hs, i);
      assert PlacedAt(dg.payload, s.parts[j], x);
    }
    forall x | 0 <= x < |dg.payload.data| ensures GivenBy(dg.payload, hs, x) {
      GivenBySource(s, k, hs, x);
    }
  }

  lemma {:induction false} HeaderAlike(t: Datagram, dg: Datagram, hs: seq<Datagram>)
    requires AllFragments(hs) && HeaderFrom(t, hs) && dg.protocol == t.protocol && dg.headerLength == t.headerLength
    ensures HeaderFrom(dg, hs)
  {
    hide OwnsHeader;
  }

  lemma {:induction false} ReadyStart(s: FragmentSet, k: Key, hs: seq<Datagram>)
    requires ReadyOk(s, k.ipv6) && Explains(s, k, hs) && hs != []
    ensures exists m :: OwnsHeader(hs, m)
  {
    hide PartsOk, SortedParts, AllCompatible, Contiguous, Reach, EndConsistent, Overhead, HeaderFrom, TerminalFrom, PacketsOf, PartsOf, OwnsHeader;
    var j := PartPlace(s, hs, 0);
    FirstPartAtZero(s.parts);
    var i := PartSource(s, hs, 0);
    var m := SomeOwner(hs, i);
  }

  lemma {:induction false} GivenBySource(s: FragmentSet, k: Key, hs: seq<Datagram>, x: int)
    requires ReadyOk(s, k.ipv6) && Explains(s, k, hs)
    requires 0 <= x < |Joined(s.parts, |s.parts|).data| == s.end.value
    ensures GivenBy(Joined(s.parts, |s.parts|), hs, x)
  {
    hide SortedParts, AllCompatible, Reach, Contiguous, EndConsistent, Overhead, HeaderFrom, TerminalFrom, PacketsOf, PartsOf, Tiled, Joined, At;
    JoinedOrigins(s.parts, |s.parts|, x);
    var j :| 0 <= j < |s.parts| && Holds(s.parts[j], x)
      && At(s.parts[j].bytes, x - s.parts[j].start) == At(Joined(s.parts, |s.parts|), x);
    var i := PartSource(s, hs, j);
    assert PartOk(s.parts[j]);
    assert Holds(PartOf(hs[i]), x);
  }

  // ---------------------------------------------------------------- runs

  datatype Event = Pushed(datagram: Datagram, frame: nat) | Reached(frame: nat)

  /** The reassembler, and for each set the admitted fragments since it was opened. */
  datatype Traced = Traced(r: Reassembler, admitted: map<Key, seq<Datagram>>)

  const NOTHING: Traced := Traced(NO_SETS, map[])

  function Before(t: Traced, k: Key): seq<Datagram> {
    if k in t.r.sets && k in t.admitted then t.admitted[k] else []
  }

  ghost function Step(t: Traced, limits: Limits, e: Event): Traced {
    match e
    case Reached(frame) => t.(r := Expired(t.r, limits, frame))
    case Pushed(d, frame) =>
      var after := Push(t.r, limits, d, frame).0;
      if PushAdmits(t.r, limits, d) then
        var k := KeyFor(d, d.fragment.value);
        Traced(after, t.admitted[k := Before(t, k) + [d]])
      else t.(r := after)
  }

  ghost function After(limits: Limits, es: seq<Event>, n: nat): Traced
    requires n <= |es|
  {
    if n == 0 then NOTHING else Step(After(limits, es, n - 1), limits, es[n - 1])
  }

  /** Every set that is not quarantined is explained by the fragments admitted to it. */
  ghost predicate Explained(t: Traced) {
    forall k | k in t.r.sets && !t.r.sets[k].poisoned :: k in t.admitted && Explains(t.r.sets[k], k, t.admitted[k])
  }

  lemma {:induction false} HeldExplains(t: Traced, limits: Limits, d: Datagram, frame: nat)
    requires Explained(t) && PushAdmits(t.r, limits, d)
    ensures d.fragment.Some? && KeyFor(d, d.fragment.value) in Held(t.r, limits, d, frame).sets
    ensures var k := KeyFor(d, d.fragment.value);
            var s := Held(t.r, limits, d, frame).sets[k];
            (!s.poisoned ==> Explains(s, k, Before(t, k))) && AdmittedPackets(t.r, d) == s.packets + Packets(d.payload)
  {
    hide Explains, Packets, Tiled;
    var k := KeyFor(d, d.fragment.value);
    if k !in t.r.sets {
      FreshExplains(d, frame, k);
      assert {} + Packets(d.payload) == Packets(d.payload);
    }
  }

  lemma {:induction false} PushExplained(t: Traced, limits: Limits, d: Datagram, frame: nat)
    requires Sound(t.r, limits) && Explained(t)
    ensures Explained(Step(t, limits, Pushed(d, frame)))
  {
    hide Sound, Explains, Push, PushAdmits, Settle, Offer, Packets, Held, AdmittedPackets, AdmittedSize;
    var v := Step(t, limits, Pushed(d, frame));
    if PushAdmits(t.r, limits, d) {
      HeldExplains(t, limits, d, frame);
      HeldSound(t.r, limits, d, frame);
      var k, held := KeyFor(d, d.fragment.value), Held(t.r, limits, d, frame);
      var step := Offer(held.sets[k], d, d.fragment.value, AdmittedPackets(t.r, d));
      OfferQuarantine(held, limits, d, frame, AdmittedPackets(t.r, d), AdmittedSize(t.r, d));
      if !held.sets[k].poisoned {
        OfferExplains(held.sets[k], k, Before(t, k), d);
      }
      SettledSet(held, limits, k, step, AdmittedSize(t.r, d));
    } else {
      PushRefused(t.r, limits, d, frame);
    }
  }

  /** A set that refuses is quarantined. */
  lemma {:induction false} OfferQuarantine(held: Reassembler, limits: Limits, d: Datagram, frame: nat, packets: set<PacketId>, size: nat)
    requires d.fragment.Some? && Sound(held, limits) && Admitted(held, limits, d, KeyFor(d, d.fragment.value), packets, size)
    ensures var s := held.sets[KeyFor(d, d.fragment.value)];
            var step := Offer(s, d, d.fragment.value, packets);
            && (step.SetRejected? <==> step.set_.poisoned) && (s.poisoned ==> step.SetRejected?)
            && (step.SetReady? ==> ReadyOk(step.set_, d.ipv6) && PartsLength(step.set_.parts) <= size)
  {
    hide Offer, Sound, SetOk, PartOk, Packets, Insert, PartsLength, ReadyOk;
    var key := KeyFor(d, d.fragment.value);
    var s, info := held.sets[key], d.fragment.value;
    SoundAccount(held, limits, key);
    OfferSound(s, d, info, packets);
    InsertLength(s.parts, Part(info.offset, info.more, d.payload));
  }

  /** Settling changes only the set it settles. */
  lemma {:induction false} SettledSet(r: Reassembler, limits: Limits, key: Key, step: SetStep, size: nat)
    requires key in r.sets && (step.SetReady? ==> PartsLength(step.set_.parts) <= size)
    ensures var (after, outcome) := Settle(r, limits, key, step, size);
            && outcome.Ok?
            && (forall k | k != key :: k in after.sets <==> k in r.sets)
            && (forall k | k != key && k in r.sets :: after.sets[k] == r.sets[k])
            && (key in after.sets <==> !step.SetReady?) && (key in after.sets ==> after.sets[key] == step.set_)
            && (outcome.value.Complete? <==> step.SetReady?)
            && (step.SetReady? ==>
                  outcome == Ok(Complete(step.set_.template.(payload := Joined(step.set_.parts, |step.set_.parts|), fragment := None), step.set_.packets)))
  {
    hide Joined, PartsLength;
  }

  /** Every event of a run keeps the sets sound and explained. */
  lemma {:induction false} RunExplained(limits: Limits, es: seq<Event>, n: nat)
    requires n <= |es|
    ensures Sound(After(limits, es, n).r, limits) && Explained(After(limits, es, n))
  {
    hide Sound, Explained, Push, Expired, PushAdmits;
    if n == 0 {
      NothingExplained(limits);
    } else {
      RunExplained(limits, es, n - 1);
      var t := After(limits, es, n - 1);
      match es[n - 1] {
        case Reached(frame) =>
          ExpiredSound(t.r, limits, frame);
          ExpiredExplained(t, limits, frame);
        case Pushed(d, frame) =>
          PushSound(t.r, limits, d, frame);
          PushExplained(t, limits, d, frame);
      }
    }
  }

  lemma {:induction false} NothingExplained(limits: Limits)
    ensures Sound(NO_SETS, limits) && Explained(NOTHING)
  {
  }

  lemma {:induction false} ExpiredExplained(t: Traced, limits: Limits, frame: nat)
    requires Explained(t)
    ensures Explained(t.(r := Expired(t.r, limits, frame)))
  {
    hide Explains, DeadlinesOf, TotalParts, Due;
  }

  ghost predicate WasPushed(es: seq<Event>, n: nat, d: Datagram) {
    exists i | 0 <= i < n <= |es| :: es[i].Pushed? && es[i].datagram == d
  }

  /** The fragments admitted to a set were pushed in this run. */
  lemma {:induction false} AdmittedWerePushed(limits: Limits, es: seq<Event>, n: nat, k: Key, i: int)
    requires n <= |es| && k in After(limits, es, n).admitted && 0 <= i < |After(limits, es, n).admitted[k]|
    ensures WasPushed(es, n, After(limits, es, n).admitted[k][i])
  {
    hide Push, PushAdmits, Expired, KeyFor;
    var t, now := After(limits, es, n - 1), After(limits, es, n);
    if k in t.admitted && i < |t.admitted[k]| && t.admitted[k][i] == now.admitted[k][i] {
      AdmittedWerePushed(limits, es, n - 1, k, i);
      var j :| 0 <= j < n - 1 && es[j].Pushed? && es[j].datagram == now.admitted[k][i];
    } else {
      assert es[n - 1].Pushed? && es[n - 1].datagram == now.admitted[k][i];
    }
  }

  /**
   Over every run of pushes and expiries, whatever the fragments: a push that completes a datagram
   returns exactly what the fragments admitted to its set since it was opened say.
   */
  lemma {:induction false} RunCompletes(limits: Limits, es: seq<Event>, n: nat, d: Datagram, frame: nat)
    requires n <= |es| && d.fragment.Some?
    requires var outcome := Push(After(limits, es, n).r, limits, d, frame).1;
             outcome.Ok? && outcome.value.Complete?
    ensures var t := After(limits, es, n);
            var outcome := Push(t.r, limits, d, frame).1.value;
            var k := KeyFor(d, d.fragment.value);
            CompletedFrom(outcome.datagram, outcome.packets, k, Before(t, k) + [d])
  {
    hide Sound, Explained, Push, PushAdmits, Settle, Offer, Packets, Held, AdmittedPackets, AdmittedSize, ReadyOk, Explains, CompletedFrom, Joined, Before;
    var t := After(limits, es, n);
    RunExplained(limits, es, n);
    if !PushAdmits(t.r, limits, d) {
      PushRefused(t.r, limits, d, frame);
    } else {
      HeldExplains(t, limits, d, frame);
      HeldSound(t.r, limits, d, frame);
      var k, held := KeyFor(d, d.fragment.value), Held(t.r, limits, d, frame);
      var step := Offer(held.sets[k], d, d.fragment.value, AdmittedPackets(t.r, d));
      OfferQuarantine(held, limits, d, frame, AdmittedPackets(t.r, d), AdmittedSize(t.r, d));
      SettledSet(held, limits, k, step, AdmittedSize(t.r, d));
      OfferExplains(held.sets[k], k, Before(t, k), d);
      ReadyCompletes(step.set_, k, Before(t, k) + [d]);
    }
  }
}
