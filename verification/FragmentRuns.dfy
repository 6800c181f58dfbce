/** The whole reassembler over any run of pushes and expiries. */
module FragmentRuns {
  import opened Common
  import opened Provenance
  import opened FragmentSets
  import opened FragmentParts
  import opened FragmentSafety

  ghost function SomeKey(sets: map<Key, FragmentSet>): (k: Key)
    requires sets != map[]
    ensures k in sets
  {
    assert (forall k :: k !in sets) ==> sets == map[];
    var k :| k in sets;
    k
  }

  lemma {:induction false} Smaller(sets: map<Key, FragmentSet>, k: Key)
    requires k in sets
    ensures |sets - {k}| == |sets| - 1
  {
    assert (sets - {k}).Keys == sets.Keys - {k};
  }

  /** Bytes held by all live sets. */
  ghost function TotalParts(sets: map<Key, FragmentSet>): nat
    decreases |sets|
  {
    if sets == map[] then 0
    else
      var k := SomeKey(sets);
      Smaller(sets, k);
      PartsLength(sets[k].parts) + TotalParts(sets - {k})
  }

  lemma {:induction false} TotalWithout(sets: map<Key, FragmentSet>, k: Key)
    requires k in sets
    ensures TotalParts(sets) == PartsLength(sets[k].parts) + TotalParts(sets - {k})
    decreases |sets|
  {
    hide PartsLength;
    var j := SomeKey(sets);
    if j != k {
      Smaller(sets, j);
      Smaller(sets, k);
      TotalWithout(sets - {j}, k);
      TotalWithout(sets - {k}, j);
      assert (sets - {j}) - {k} == (sets - {k}) - {j};
    }
  }

  lemma {:induction false} TotalUpdate(sets: map<Key, FragmentSet>, k: Key, s: FragmentSet)
    ensures TotalParts(sets[k := s]) == TotalParts(sets - {k}) + PartsLength(s.parts)
    ensures k in sets ==> TotalParts(sets) == TotalParts(sets - {k}) + PartsLength(sets[k].parts)
    ensures k !in sets ==> sets - {k} == sets
  {
    TotalWithout(sets[k := s], k);
    assert sets[k := s] - {k} == sets - {k};
    if k in sets {
      TotalWithout(sets, k);
    }
  }

  ghost function DeadlinesOf(sets: map<Key, FragmentSet>, limits: Limits): set<(nat, Key)> {
    set k | k in sets && Deadline(limits, sets[k].firstFrame).Some? :: (Deadline(limits, sets[k].firstFrame).value, k)
  }

  /** The byte account, the deadline index and every set are in order. */
  ghost predicate Sound(r: Reassembler, limits: Limits) {
    && (forall k | k in r.sets :: SetOk(r.sets[k], k.ipv6))
    && r.retained == TotalParts(r.sets) <= limits.maxRetainedPayload
    && r.deadlines == DeadlinesOf(r.sets, limits)
    && |r.sets| <= limits.maxFragmentSets
  }

  lemma {:induction false} InDeadlines(sets: map<Key, FragmentSet>, limits: Limits, x: (nat, Key))
    ensures x in DeadlinesOf(sets, limits)
       <==> x.1 in sets && Deadline(limits, sets[x.1].firstFrame) == Some(x.0)
  {
  }

  function DeadlineEntry(limits: Limits, firstFrame: nat, k: Key): set<(nat, Key)> {
    if Deadline(limits, firstFrame).Some? then {(Deadline(limits, firstFrame).value, k)} else {}
  }

  lemma {:induction false} DeadlinesUpdate(sets: map<Key, FragmentSet>, limits: Limits, k: Key, s: FragmentSet)
    ensures k in sets && s.firstFrame == sets[k].firstFrame ==> DeadlinesOf(sets[k := s], limits) == DeadlinesOf(sets, limits)
    ensures k !in sets ==>
              DeadlinesOf(sets[k := s], limits) == DeadlinesOf(sets, limits) + DeadlineEntry(limits, s.firstFrame, k)
    ensures k in sets ==>
              DeadlinesOf(sets - {k}, limits) == DeadlinesOf(sets, limits) - DeadlineEntry(limits, sets[k].firstFrame, k)
  {
    hide DeadlinesOf;
    forall x: (nat, Key)
      ensures x in DeadlinesOf(sets[k := s], limits) <==> x.1 in sets[k := s] && Deadline(limits, sets[k := s][x.1].firstFrame) == Some(x.0)
      ensures x in DeadlinesOf(sets, limits) <==> x.1 in sets && Deadline(limits, sets[x.1].firstFrame) == Some(x.0)
      ensures x in DeadlinesOf(sets - {k}, limits) <==> x.1 in sets - {k} && Deadline(limits, (sets - {k})[x.1].firstFrame) == Some(x.0)
    {
      InDeadlines(sets[k := s], limits, x);
      InDeadlines(sets, limits, x);
      InDeadlines(sets - {k}, limits, x);
    }
  }

  lemma {:induction false} RemoveSound(r: Reassembler, limits: Limits, key: Key)
    requires Sound(r, limits) && key in r.sets
    ensures PartsLength(r.sets[key].parts) <= r.retained
    ensures Sound(Remove(r, limits, key), limits)
  {
    hide SetOk, PartsLength, TotalParts;
    TotalUpdate(r.sets, key, r.sets[key]);
    DeadlinesUpdate(r.sets, limits, key, r.sets[key]);
    assert (r.sets - {key}).Keys == r.sets.Keys - {key};
  }

  /** A fresh set is sound and empty. */
  lemma {:induction false} NewSetOk(d: Datagram, frame: nat, ipv6: bool)
    ensures SetOk(NewSet(d, frame), ipv6) && PartsLength(NewSet(d, frame).parts) == 0
    ensures NewSet(d, frame).firstFrame == frame && NewSet(d, frame).packets == {} && !NewSet(d, frame).poisoned
  {
  }

  lemma {:induction false} OpenSound(r: Reassembler, limits: Limits, key: Key, d: Datagram, frame: nat)
    requires Sound(r, limits) && key !in r.sets && |r.sets| < limits.maxFragmentSets
    ensures Sound(Open(r, limits, key, d, frame), limits)
    ensures Open(r, limits, key, d, frame).retained == r.retained
  {
    hide SetOk, PartsLength, TotalParts, DeadlinesOf, NewSet, Open, DeadlineEntry;
    NewSetOk(d, frame, key.ipv6);
    TotalUpdate(r.sets, key, NewSet(d, frame));
    DeadlinesUpdate(r.sets, limits, key, NewSet(d, frame));
    OpenShape(r, limits, key, d, frame);
  }

  lemma {:induction false} OpenShape(r: Reassembler, limits: Limits, key: Key, d: Datagram, frame: nat)
    requires key !in r.sets
    ensures var after := Open(r, limits, key, d, frame);
            && after.sets == r.sets[key := NewSet(d, frame)] && after.retained == r.retained
            && after.deadlines == r.deadlines + DeadlineEntry(limits, frame, key)
            && |after.sets| == |r.sets| + 1
  {
    hide NewSet, Deadline;
    assert r.sets[key := NewSet(d, frame)].Keys == r.sets.Keys + {key};
  }

  /** Storing a changed set keeps the reassembler sound when the byte account follows it. */
  lemma {:induction false} StoreSound(r: Reassembler, limits: Limits, key: Key, s: FragmentSet, size: nat)
    requires Sound(r, limits) && key in r.sets && SetOk(s, key.ipv6) && s.firstFrame == r.sets[key].firstFrame
    requires size == r.retained - PartsLength(r.sets[key].parts) + PartsLength(s.parts) <= limits.maxRetainedPayload
    ensures Sound(r.(sets := r.sets[key := s], retained := size), limits)
  {
    hide SetOk, PartsLength, TotalParts, DeadlinesOf;
    TotalUpdate(r.sets, key, s);
    DeadlinesUpdate(r.sets, limits, key, s);
    assert r.sets[key := s].Keys == r.sets.Keys;
  }

  /** Removing a finished set releases exactly its bytes. */
  lemma {:induction false} FinishSound(r: Reassembler, limits: Limits, key: Key, s: FragmentSet, size: nat)
    requires Sound(r, limits) && key in r.sets && s.firstFrame == r.sets[key].firstFrame
    requires size == r.retained - PartsLength(r.sets[key].parts) + PartsLength(s.parts)
    ensures PartsLength(s.parts) <= size
    ensures var stored := r.(sets := r.sets[key := s], retained := size);
            key in stored.sets && PartsLength(stored.sets[key].parts) <= size
            && Sound(Remove(stored, limits, key), limits)
            && Remove(stored, limits, key).sets == r.sets - {key}
  {
    hide SetOk, PartsLength, TotalParts, DeadlinesOf;
    TotalUpdate(r.sets, key, r.sets[key]);
    DeadlinesUpdate(r.sets, limits, key, r.sets[key]);
    var stored := r.(sets := r.sets[key := s], retained := size);
    assert stored.sets - {key} == r.sets - {key};
    assert (r.sets - {key}).Keys == r.sets.Keys - {key};
  }

  /** A fragment that passed the entry checks, with its set in place. */
  ghost predicate Admitted(r: Reassembler, limits: Limits, d: Datagram, key: Key, packets: set<PacketId>, size: nat) {
    && d.fragment.Some? && key == KeyFor(d, d.fragment.value) && key in r.sets
    && PartOk(Part(d.fragment.value.offset, d.fragment.value.more, d.payload))
    && packets == r.sets[key].packets + Packets(d.payload)
    && size == (if r.sets[key].poisoned then r.retained else r.retained + |d.payload.data|)
    && size <= limits.maxRetainedPayload
  }

  lemma {:induction false} SettleSound(r: Reassembler, limits: Limits, d: Datagram, key: Key, packets: set<PacketId>, size: nat)
    requires Sound(r, limits) && Admitted(r, limits, d, key, packets, size)
    ensures var step := Offer(r.sets[key], d, d.fragment.value, packets);
            Sound(Settle(r, limits, key, step, size).0, limits)
  {
    hide SetOk, Offer, PartsLength, TotalParts, DeadlinesOf, PartOk, Insert, Remove, ReadyOk, Joined, Packets;
    var s, info := r.sets[key], d.fragment.value;
    var p := Part(info.offset, info.more, d.payload);
    var step := Offer(s, d, info, packets);
    OfferSound(s, d, info, packets);
    InsertLength(s.parts, p);
    SoundAccount(r, limits, key);
    if step.SetReady? {
      FinishSound(r, limits, key, step.set_, size);
    } else if step.SetPending? || step.code == LengthOverflow {
      StoreSound(r, limits, key, step.set_, size);
    } else {
      StoreSound(r, limits, key, step.set_, r.retained);
    }
  }

  lemma {:induction false} SoundAccount(r: Reassembler, limits: Limits, key: Key)
    requires Sound(r, limits) && key in r.sets
    ensures PartsLength(r.sets[key].parts) <= r.retained <= limits.maxRetainedPayload
    ensures SetOk(r.sets[key], key.ipv6)
  {
    hide SetOk, PartsLength, TotalParts;
    TotalUpdate(r.sets, key, r.sets[key]);
  }

  /** Every push keeps the reassembler sound, whatever it returns. */
  lemma {:induction false} PushSound(r: Reassembler, limits: Limits, d: Datagram, frame: nat)
    requires Sound(r, limits)
    ensures Sound(Push(r, limits, d, frame).0, limits)
  {
    hide Sound, Settle, Offer, Open, Valid, Packets;
    if PushAdmits(r, limits, d) {
      var key := KeyFor(d, d.fragment.value);
      var held := Held(r, limits, d, frame);
      HeldSound(r, limits, d, frame);
      SettleSound(held, limits, d, key, AdmittedPackets(r, d), AdmittedSize(r, d));
    }
  }

  function AdmittedPackets(r: Reassembler, d: Datagram): set<PacketId>
    requires d.fragment.Some?
  {
    var key := KeyFor(d, d.fragment.value);
    (if key in r.sets then r.sets[key].packets else {}) + Packets(d.payload)
  }

  function AdmittedSize(r: Reassembler, d: Datagram): nat
    requires d.fragment.Some?
  {
    var key := KeyFor(d, d.fragment.value);
    if key in r.sets && r.sets[key].poisoned then r.retained else r.retained + |d.payload.data|
  }

  /** The entry checks of a push, all passed. */
  predicate PushAdmits(r: Reassembler, limits: Limits, d: Datagram) {
    && limits.Valid() && d.fragment.Some?
    && d.fragment.value.offset + |d.payload.data| <= MAX_DATAGRAM && d.payload.data != [] && Valid(d.payload)
    && |AdmittedPackets(r, d)| <= limits.maxFragmentsPerSet
    && AdmittedSize(r, d) <= limits.maxRetainedPayload
    && var key := KeyFor(d, d.fragment.value);
       if key in r.sets then |r.sets[key].parts| < limits.maxFragmentsPerSet else |r.sets| < limits.maxFragmentSets
  }

  function Held(r: Reassembler, limits: Limits, d: Datagram, frame: nat): Reassembler
    requires d.fragment.Some?
  {
    var key := KeyFor(d, d.fragment.value);
    if key in r.sets then r else Open(r, limits, key, d, frame)
  }

  lemma {:induction false} HeldSound(r: Reassembler, limits: Limits, d: Datagram, frame: nat)
    requires Sound(r, limits) && PushAdmits(r, limits, d)
    ensures var key := KeyFor(d, d.fragment.value);
            var held := Held(r, limits, d, frame);
            && Sound(held, limits) && held.retained == r.retained && key in held.sets
            && (forall k | k != key :: k in held.sets <==> k in r.sets)
            && (forall k | k != key && k in r.sets :: held.sets[k] == r.sets[k])
            && Admitted(held, limits, d, key, AdmittedPackets(r, d), AdmittedSize(r, d))
            && Push(r, limits, d, frame)
               == Settle(held, limits, key, Offer(held.sets[key], d, d.fragment.value, AdmittedPackets(r, d)), AdmittedSize(r, d))
  {
    hide Sound, Settle, Offer, Packets, Tiled, Push, PushAdmits, Held, Open, Admitted;
    HeldShape(r, limits, d, frame);
    var key := KeyFor(d, d.fragment.value);
    PushHeld(r, limits, d, frame);
    HeldAdmitted(r, limits, d, frame);
    if key !in r.sets {
      OpenSound(r, limits, key, d, frame);
    }
  }

  lemma {:induction false} HeldShape(r: Reassembler, limits: Limits, d: Datagram, frame: nat)
    requires PushAdmits(r, limits, d)
    ensures d.fragment.Some?
    ensures var key := KeyFor(d, d.fragment.value);
            && (key !in r.sets ==> |r.sets| < limits.maxFragmentSets)
            && Held(r, limits, d, frame) == (if key in r.sets then r else Open(r, limits, key, d, frame))
            && Held(r, limits, d, frame).retained == r.retained && key in Held(r, limits, d, frame).sets
            && (forall k | k != key :: k in Held(r, limits, d, frame).sets <==> k in r.sets)
            && (forall k | k != key && k in r.sets :: Held(r, limits, d, frame).sets[k] == r.sets[k])
  {
    hide Packets, Tiled, NewSet;
  }

  lemma {:induction false} HeldAdmitted(r: Reassembler, limits: Limits, d: Datagram, frame: nat)
    requires PushAdmits(r, limits, d)
    ensures Admitted(Held(r, limits, d, frame), limits, d, KeyFor(d, d.fragment.value), AdmittedPackets(r, d), AdmittedSize(r, d))
  {
    hide Packets, Tiled;
    assert {} + Packets(d.payload) == Packets(d.payload);
  }

  /** An admitted push offers the fragment to its set and settles the result. */
  lemma {:induction false} PushHeld(r: Reassembler, limits: Limits, d: Datagram, frame: nat)
    requires PushAdmits(r, limits, d)
    ensures var key := KeyFor(d, d.fragment.value);
            var held := Held(r, limits, d, frame);
            && key in held.sets
            && Push(r, limits, d, frame)
               == Settle(held, limits, key, Offer(held.sets[key], d, d.fragment.value, AdmittedPackets(r, d)), AdmittedSize(r, d))
  {
    hide Settle, Offer, Packets, Tiled, NewSet;
  }

  /** A push that is not admitted changes nothing. */
  lemma {:induction false} PushRefused(r: Reassembler, limits: Limits, d: Datagram, frame: nat)
    requires !PushAdmits(r, limits, d)
    ensures Push(r, limits, d, frame).0 == r
    ensures var outcome := Push(r, limits, d, frame).1;
            outcome.Ok? ==>
              && (outcome.value.Complete? ==> d.fragment.None? && outcome.value.datagram == d && outcome.value.packets == Packets(d.payload))
              && (outcome.value.Rejected? ==> outcome.value.notice.packets == Packets(d.payload))
              && !outcome.value.Pending?
  {
    hide Settle, Offer, Open, Packets, Valid;
  }

  /** The live sets decide the byte account and the deadline index. */
  lemma {:induction false} SoundUnique(r: Reassembler, q: Reassembler, limits: Limits)
    requires Sound(r, limits) && Sound(q, limits) && r.sets == q.sets
    ensures r == q
  {
    hide SetOk, TotalParts, DeadlinesOf;
  }

  // ---------------------------------------------------------------- expiry

  /** The sets that outlive frame f. */
  function Survivors(sets: map<Key, FragmentSet>, limits: Limits, frame: nat): map<Key, FragmentSet> {
    map k | k in sets && !Due(limits, sets[k], frame) :: sets[k]
  }

  /** The reassembler once everything due at a frame has gone. */
  ghost function Expired(r: Reassembler, limits: Limits, frame: nat): Reassembler {
    var sets := Survivors(r.sets, limits, frame);
    Reassembler(sets, DeadlinesOf(sets, limits), TotalParts(sets))
  }

  ghost predicate Within(a: map<Key, FragmentSet>, b: map<Key, FragmentSet>) {
    forall k | k in a :: k in b && b[k] == a[k]
  }

  lemma {:induction false} TotalWithin(a: map<Key, FragmentSet>, b: map<Key, FragmentSet>)
    requires Within(a, b)
    ensures TotalParts(a) <= TotalParts(b) && |a| <= |b|
    decreases |a|
  {
    hide PartsLength;
    if a == map[] {
      NothingHeldTotal();
    } else {
      hide TotalParts;
      var k := SomeKey(a);
      Smaller(a, k);
      Smaller(b, k);
      TotalWithout(a, k);
      TotalWithout(b, k);
      TotalWithin(a - {k}, b - {k});
    }
  }

  lemma {:induction false} NothingHeldTotal()
    ensures TotalParts(map[]) == 0
  {
  }

  lemma {:induction false} ExpiredSound(r: Reassembler, limits: Limits, frame: nat)
    requires Sound(r, limits)
    ensures Sound(Expired(r, limits, frame), limits)
  {
    hide SetOk, TotalParts, DeadlinesOf, Due;
    TotalWithin(Survivors(r.sets, limits, frame), r.sets);
  }

  // ---------------------------------------------------------------- packets

  /** The packets some live set still answers for. */
  ghost function Live(r: Reassembler): set<PacketId> {
    set k, p | k in r.sets && p in r.sets[k].packets :: p
  }

  /** The packets an outcome hands back to the caller. */
  function Returned(outcome: Outcome): set<PacketId> {
    match outcome
    case Pending => {}
    case Complete(_, packets) => packets
    case Rejected(notice) => notice.packets
  }

  lemma {:induction false} InLive(r: Reassembler, k: Key, p: PacketId)
    requires k in r.sets && p in r.sets[k].packets
    ensures p in Live(r)
  {
  }

  /**
   No packet is lost and none is invented: after a push each earlier live packet and each packet of
   the fragment is live or handed back, and nothing else is.
   */
  lemma {:induction false} PacketsConserved(r: Reassembler, limits: Limits, d: Datagram, frame: nat)
    requires Sound(r, limits) && Push(r, limits, d, frame).1.Ok?
    ensures var (after, outcome) := Push(r, limits, d, frame);
            Live(after) + Returned(outcome.value) == Live(r) + Packets(d.payload)
    ensures var (after, outcome) := Push(r, limits, d, frame);
            outcome.value.Pending? ==> Live(after) == Live(r) + Packets(d.payload)
  {
    if PushAdmits(r, limits, d) {
      hide Push, Sound, Packets, Settle, Offer, PartOk, Live, Returned;
      var key := KeyFor(d, d.fragment.value);
      var held := Held(r, limits, d, frame);
      HeldSound(r, limits, d, frame);
      HeldLive(r, limits, d, frame);
      SettlePackets(held, limits, d, key, AdmittedPackets(r, d), AdmittedSize(r, d));
    } else {
      hide Push, Packets, PushAdmits;
      PushRefused(r, limits, d, frame);
    }
  }

  lemma {:induction false} HeldLive(r: Reassembler, limits: Limits, d: Datagram, frame: nat)
    requires d.fragment.Some?
    ensures Live(Held(r, limits, d, frame)) == Live(r)
  {
    var held := Held(r, limits, d, frame);
    forall p ensures p in Live(held) <==> p in Live(r) {
      if p in Live(r) {
        var k :| k in r.sets && p in r.sets[k].packets;
        assert k in held.sets && held.sets[k] == r.sets[k];
      }
    }
  }

  lemma {:induction false} SettlePackets(r: Reassembler, limits: Limits, d: Datagram, key: Key, packets: set<PacketId>, size: nat)
    requires Sound(r, limits) && Admitted(r, limits, d, key, packets, size)
    ensures var (after, outcome) := Settle(r, limits, key, Offer(r.sets[key], d, d.fragment.value, packets), size);
            && outcome.Ok?
            && Live(after) + Returned(outcome.value) == Live(r) + Packets(d.payload)
            && (outcome.value.Pending? ==> Live(after) == Live(r) + Packets(d.payload))
            && (forall k | k != key :: k in after.sets <==> k in r.sets)
            && (forall k | k != key && k in r.sets :: after.sets[k] == r.sets[k])
  {
    hide Offer, PartsLength, TotalParts, DeadlinesOf, PartOk, Insert, ReadyOk, SetOk, Joined, Packets, Live;
    var s, info := r.sets[key], d.fragment.value;
    var step := Offer(s, d, info, packets);
    SoundAccount(r, limits, key);
    OfferSound(s, d, info, packets);
    InsertLength(s.parts, Part(info.offset, info.more, d.payload));
    LiveUpdate(r, key, step.set_);
    LiveRemove(r, key);
    assert s.packets <= Live(r);
    assert Live(r) + packets == Live(r) + Packets(d.payload);
    if step.SetReady? {
      FinishSound(r, limits, key, step.set_, size);
      assert Live(r.(sets := r.sets - {key})) + packets == Live(r) + Packets(d.payload);
      LiveAlike(Remove(r.(sets := r.sets[key := step.set_], retained := size), limits, key), r.(sets := r.sets - {key}));
    } else {
      LiveAlike(Settle(r, limits, key, step, size).0, r.(sets := r.sets[key := step.set_]));
    }
  }

  lemma {:induction false} LiveAlike(a: Reassembler, b: Reassembler)
    requires a.sets == b.sets
    ensures Live(a) == Live(b)
  {
  }

  lemma {:induction false} LiveUpdate(r: Reassembler, key: Key, s: FragmentSet)
    requires key in r.sets && r.sets[key].packets <= s.packets
    ensures Live(r.(sets := r.sets[key := s])) == Live(r) + s.packets
  {
    var after := r.(sets := r.sets[key := s]);
    forall p ensures p in Live(after) <==> p in Live(r) + s.packets {
      if p in Live(r) {
        var k :| k in r.sets && p in r.sets[k].packets;
        assert k in after.sets && p in after.sets[k].packets;
      }
      if p in s.packets {
        assert key in after.sets && p in after.sets[key].packets;
      }
    }
  }

  lemma {:induction false} LiveRemove(r: Reassembler, key: Key)
    requires key in r.sets
    ensures Live(r.(sets := r.sets - {key})) + r.sets[key].packets == Live(r)
  {
    var after := r.(sets := r.sets - {key});
    forall p ensures p in Live(after) + r.sets[key].packets <==> p in Live(r) {
      if p in Live(r) {
        var k :| k in r.sets && p in r.sets[k].packets;
        if k != key {
          assert k in after.sets && p in after.sets[k].packets;
        }
      }
      if p in Live(after) {
        var k :| k in after.sets && p in after.sets[k].packets;
        assert k in r.sets && p in r.sets[k].packets;
      }
      if p in r.sets[key].packets {
        InLive(r, key, p);
      }
    }
  }

  // ---------------------------------------------------------------- quarantine and independence

  /** A push for one datagram never touches the set of another. */
  lemma {:induction false} OtherSetsUntouched(r: Reassembler, limits: Limits, d: Datagram, frame: nat, k: Key)
    requires Sound(r, limits) && (d.fragment.Some? ==> k != KeyFor(d, d.fragment.value))
    ensures k in Push(r, limits, d, frame).0.sets <==> k in r.sets
    ensures k in r.sets ==> Push(r, limits, d, frame).0.sets[k] == r.sets[k]
  {
    if PushAdmits(r, limits, d) {
      hide Push, Sound, Packets, PushAdmits, Settle, Offer, PartOk, Live;
      HeldSound(r, limits, d, frame);
      SettlePackets(Held(r, limits, d, frame), limits, d, KeyFor(d, d.fragment.value), AdmittedPackets(r, d), AdmittedSize(r, d));
    } else {
      PushRefused(r, limits, d, frame);
    }
  }

  /** Once quarantined, a set stays quarantined through every push and completes nothing. */
  lemma {:induction false} QuarantineHolds(r: Reassembler, limits: Limits, d: Datagram, frame: nat, k: Key)
    requires Sound(r, limits) && k in r.sets && r.sets[k].poisoned
    ensures k in Push(r, limits, d, frame).0.sets && Push(r, limits, d, frame).0.sets[k].poisoned
    ensures d.fragment.Some? && k == KeyFor(d, d.fragment.value) && Push(r, limits, d, frame).1.Ok? ==>
              Push(r, limits, d, frame).1.value.Rejected?
  {
    if d.fragment.Some? && k == KeyFor(d, d.fragment.value) {
      if PushAdmits(r, limits, d) {
        hide Push, Sound, Packets, PushAdmits, Offer, PartOk;
        HeldSound(r, limits, d, frame);
        var held := Held(r, limits, d, frame);
        SoundAccount(held, limits, k);
        OfferSound(held.sets[k], d, d.fragment.value, AdmittedPackets(r, d));
      } else {
        PushRefused(r, limits, d, frame);
      }
    } else {
      OtherSetsUntouched(r, limits, d, frame, k);
    }
  }
}
