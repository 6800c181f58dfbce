/** Completion as the callers of the reassembler see it: one push per arriving fragment. */
module FragmentArrival {
  import opened Common
  import opened Provenance
  import opened FragmentSets
  import opened FragmentParts
  import opened FragmentSafety
  import opened FragmentRuns
  import opened FragmentOrder
  import opened FragmentTiling

  /** The reassembler after the first k pushes. */
  function AfterPushes(r: Reassembler, limits: Limits, ds: seq<Datagram>, frames: seq<nat>, k: nat): Reassembler
    requires k <= |ds| == |frames|
  {
    if k == 0 then r else Push(AfterPushes(r, limits, ds, frames, k - 1), limits, ds[k - 1], frames[k - 1]).0
  }

  /** Budgets that leave room for one more datagram of the given fragments. */
  ghost predicate Room(r: Reassembler, limits: Limits, ds: seq<Datagram>, total: nat) {
    && limits.Valid()
    && |ds| <= limits.maxFragmentsPerSet && |PacketsOfAll(ds, |ds|)| <= limits.maxFragmentsPerSet
    && r.retained + total <= limits.maxRetainedPayload && |r.sets| < limits.maxFragmentSets
  }

  ghost predicate Awaiting(r: Reassembler, key: Key, now: Reassembler, t: FragmentSet, held: nat) {
    && key in now.sets && now.sets[key] == t && now.retained == r.retained + held
    && now.sets - {key} == r.sets
  }

  /** The pushes so far have built exactly the set the offers build. */
  ghost predicate InStep(r: Reassembler, limits: Limits, ds: seq<Datagram>, frames: seq<nat>, k: nat)
    requires k <= |ds| == |frames| && OneDatagram(ds)
  {
    var key := KeyFor(ds[0], ds[0].fragment.value);
    var now := AfterPushes(r, limits, ds, frames, k);
    && Sound(now, limits)
    && (if k == 0 then now == r
        else Awaiting(r, key, now, OfferUpTo(NewSet(ds[0], frames[0]), ds, k).set_, LengthTo(ds, k)))
  }

  lemma {:induction false} PacketsGrow(ds: seq<Datagram>, k: nat)
    requires k <= |ds|
    ensures |PacketsOfAll(ds, k)| <= |PacketsOfAll(ds, |ds|)|
    decreases |ds| - k
  {
    hide Packets;
    if k < |ds| {
      PacketsGrow(ds, k + 1);
      SubsetSize(PacketsOfAll(ds, k), PacketsOfAll(ds, k + 1));
    }
  }

  lemma {:induction false} SubsetSize(a: set<PacketId>, b: set<PacketId>)
    requires a <= b
    ensures |a| <= |b|
  {
    assert b == a + (b - a);
  }

  lemma {:induction false} NextAdmitted(r: Reassembler, limits: Limits, ds: seq<Datagram>, frames: seq<nat>, k: nat, total: nat, ipv6: bool)
    requires Tiles(ds, total, ipv6) && OneDatagram(ds) && |frames| == |ds| && k < |ds|
    requires Room(r, limits, ds, total) && KeyFor(ds[0], ds[0].fragment.value) !in r.sets
    requires Sound(r, limits) && InStep(r, limits, ds, frames, k)
    ensures var now := AfterPushes(r, limits, ds, frames, k);
            && PushAdmits(now, limits, ds[k])
            && AdmittedPackets(now, ds[k]) == PacketsOfAll(ds, k) + Packets(ds[k].payload)
            && AdmittedSize(now, ds[k]) == r.retained + LengthTo(ds, k + 1)
            && Held(now, limits, ds[k], frames[k]).sets.Keys >= {KeyFor(ds[0], ds[0].fragment.value)}
            && Held(now, limits, ds[k], frames[k]).sets[KeyFor(ds[0], ds[0].fragment.value)]
               == OfferUpTo(NewSet(ds[0], frames[0]), ds, k).set_
            && (Held(now, limits, ds[k], frames[k]).sets - {KeyFor(ds[0], ds[0].fragment.value)} == r.sets)
  {
    hide Sound, Tiles, OneDatagram, ReadyOk, Packets, PacketsOfAll, NewSet, Progress, LengthTo, KeyFor, OfferUpTo, AfterPushes, Open, Tiled, DeadlineEntry;
    OneDatagramIs(ds);
    var key := KeyFor(ds[0], ds[0].fragment.value);
    var now := AfterPushes(r, limits, ds, frames, k);
    SameKey(ds, k);
    TilePart(ds, total, ipv6, k);
    TilingCompletes(ds, total, ipv6, frames[0], k);
    LengthBelow(ds, total, ipv6, k + 1, |ds|);
    LengthNext(ds, total, ipv6, k);
    PacketsGrow(ds, k + 1);
    PacketsNext(ds, k);
    ProgressParts(OfferUpTo(NewSet(ds[0], frames[0]), ds, k).set_, ds, k, total, frames[0]);
    if k == 0 {
      OpenShape(now, limits, key, ds[0], frames[0]);
      assert Open(now, limits, key, ds[0], frames[0]).sets - {key} == r.sets;
      NothingOffered(ds, frames[0]);
    }
  }

  lemma {:induction false} NothingOffered(ds: seq<Datagram>, frame: nat)
    requires AllFragments(ds) && 0 < |ds|
    ensures OfferUpTo(NewSet(ds[0], frame), ds, 0).set_ == NewSet(ds[0], frame)
  {
  }

  lemma {:induction false} TilePart(ds: seq<Datagram>, total: nat, ipv6: bool, k: nat)
    requires Tiles(ds, total, ipv6) && k < |ds|
    ensures ds[k].fragment.Some? && Valid(ds[k].payload) && ds[k].payload.data != []
    ensures ds[k].fragment.value.offset + |ds[k].payload.data| <= MAX_DATAGRAM
  {
    hide Tiled, Overlap, LengthTo;
    TileIs(ds, total, ipv6, k);
  }

  lemma {:induction false} LengthNext(ds: seq<Datagram>, total: nat, ipv6: bool, k: nat)
    requires Tiles(ds, total, ipv6) && k < |ds|
    ensures LengthTo(ds, k + 1) == LengthTo(ds, k) + |ds[k].payload.data| && LengthTo(ds, 0) == 0
    ensures LengthTo(ds, |ds|) == total
  {
    hide Overlap, Tile;
  }

  lemma {:induction false} PacketsNext(ds: seq<Datagram>, k: nat)
    requires k < |ds|
    ensures PacketsOfAll(ds, k + 1) == PacketsOfAll(ds, k) + Packets(ds[k].payload)
    ensures PacketsOfAll(ds, 0) == {}
  {
  }

  /** What the next push returns, and the state it leaves. */
  lemma {:induction false} PushNext(r: Reassembler, limits: Limits, ds: seq<Datagram>, frames: seq<nat>, k: nat, total: nat, ipv6: bool)
    requires Tiles(ds, total, ipv6) && OneDatagram(ds) && |frames| == |ds| && k < |ds|
    requires Room(r, limits, ds, total) && KeyFor(ds[0], ds[0].fragment.value) !in r.sets
    requires Sound(r, limits) && InStep(r, limits, ds, frames, k)
    ensures var now := AfterPushes(r, limits, ds, frames, k);
            var next := OfferUpTo(NewSet(ds[0], frames[0]), ds, k + 1).set_;
            && Push(now, limits, ds[k], frames[k]).1 == (if k + 1 < |ds| then Ok(Pending) else Ok(Complete(FragmentTiling.Result(next), next.packets)))
            && (k + 1 < |ds| ==> InStep(r, limits, ds, frames, k + 1))
            && (k + 1 == |ds| ==> Push(now, limits, ds[k], frames[k]).0 == r)
  {
    hide Sound, Collected, TemplateOf, Offer, ReadyOk, Packets, PacketsOfAll, NewSet, Overlap, Canonical, Tiled, Push, Held, PushAdmits, Tiles, OneDatagram, Room, Joined, AdmittedPackets, AdmittedSize, LengthTo, KeyFor;
    OneDatagramIs(ds);
    var key := KeyFor(ds[0], ds[0].fragment.value);
    var now := AfterPushes(r, limits, ds, frames, k);
    NextAdmitted(r, limits, ds, frames, k, total, ipv6);
    SameKey(ds, k);
    HeldSound(now, limits, ds[k], frames[k]);
    PushSound(now, limits, ds[k], frames[k]);
    TilingCompletes(ds, total, ipv6, frames[0], k);
    TilingCompletes(ds, total, ipv6, frames[0], k + 1);
    var held := Held(now, limits, ds[k], frames[k]);
    var next := OfferUpTo(NewSet(ds[0], frames[0]), ds, k + 1).set_;
    ProgressParts(OfferUpTo(NewSet(ds[0], frames[0]), ds, k).set_, ds, k, total, frames[0]);
    ProgressParts(next, ds, k + 1, total, frames[0]);
    assert held.sets[key := next] - {key} == held.sets - {key};
    if k + 1 == |ds| {
      FinishSound(held, limits, key, next, r.retained + LengthTo(ds, k + 1));
      SoundUnique(r, Push(now, limits, ds[k], frames[k]).0, limits);
    }
  }

  lemma {:induction false} SameKey(ds: seq<Datagram>, k: nat)
    requires OneDatagram(ds) && k < |ds|
    ensures ds[0].fragment.Some? && ds[k].fragment.Some?
    ensures KeyFor(ds[k], ds[k].fragment.value) == KeyFor(ds[0], ds[0].fragment.value)
  {
    hide Canonical;
    assert SameFlow(ds[k], ds[0]);
  }

  lemma {:induction false} ProgressParts(t: FragmentSet, ds: seq<Datagram>, k: nat, total: nat, frame: nat)
    requires AllFragments(ds) && 0 < |ds| && k <= |ds| && Progress(t, ds, k, total, frame)
    ensures PartsLength(t.parts) == LengthTo(ds, k) && t.packets == PacketsOfAll(ds, k) && t.firstFrame == frame
    ensures |t.parts| == k && !t.poisoned
  {
    hide Collected, TemplateOf, PartsLength, LengthTo, PacketsOfAll;
    CollectedFacts(t, ds, k, total);
  }

  lemma {:induction false} StaysInStep(r: Reassembler, limits: Limits, ds: seq<Datagram>, frames: seq<nat>, k: nat, total: nat, ipv6: bool)
    requires Tiles(ds, total, ipv6) && OneDatagram(ds) && |frames| == |ds| && k < |ds|
    requires Room(r, limits, ds, total) && KeyFor(ds[0], ds[0].fragment.value) !in r.sets && Sound(r, limits)
    ensures InStep(r, limits, ds, frames, k)
  {
    hide Tiles, OneDatagram, Room, Sound, KeyFor;
    if k > 0 {
      StaysInStep(r, limits, ds, frames, k - 1, total, ipv6);
      hide InStep;
      PushNext(r, limits, ds, frames, k - 1, total, ipv6);
    }
  }

  /**
   Pushing fragments that tile a datagram, in any order and with room for them: every push but the
   last is pending, the last returns the whole datagram with every contributing packet, and the
   reassembler is back in its earlier state.
   */
  lemma {:induction false} LastPushCompletes(r: Reassembler, limits: Limits, ds: seq<Datagram>, frames: seq<nat>, k: nat, total: nat, ipv6: bool)
    requires Tiles(ds, total, ipv6) && OneDatagram(ds) && |frames| == |ds| && k < |ds|
    requires Room(r, limits, ds, total) && KeyFor(ds[0], ds[0].fragment.value) !in r.sets && Sound(r, limits)
    ensures var outcome := Push(AfterPushes(r, limits, ds, frames, k), limits, ds[k], frames[k]).1;
            if k + 1 < |ds| then outcome == Ok(Pending)
            else outcome.Ok? && outcome.value.Complete?
                 && outcome.value.datagram == FragmentTiling.Result(OfferUpTo(NewSet(ds[0], frames[0]), ds, |ds|).set_)
                 && outcome.value.packets == PacketsOfAll(ds, |ds|)
    ensures AfterPushes(r, limits, ds, frames, |ds|) == r
  {
    hide Tiles, OneDatagram, Room, Sound, InStep, Push, Progress, OfferUpTo, NewSet, PacketsOfAll, ReadyOk;
    StaysInStep(r, limits, ds, frames, k, total, ipv6);
    PushNext(r, limits, ds, frames, k, total, ipv6);
    StaysInStep(r, limits, ds, frames, |ds| - 1, total, ipv6);
    PushNext(r, limits, ds, frames, |ds| - 1, total, ipv6);
    TilingCompletes(ds, total, ipv6, frames[0], |ds|);
    OneDatagramIs(ds);
    ProgressParts(OfferUpTo(NewSet(ds[0], frames[0]), ds, |ds|).set_, ds, |ds|, total, frames[0]);
  }
}
