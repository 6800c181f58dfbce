/** The reassembler as the program keeps it: sets, a deadline index and a byte account in place. */
module FragmentEngine {
  import opened Common
  import opened Provenance
  import opened FragmentSets
  import opened FragmentParts
  import opened FragmentSafety
  import opened FragmentRuns

  /** Compare a new part with the accepted ones; the last contradiction decides the code. */
  method CheckOverlaps(parts: seq<Part>, p: Part, ipv6: bool, before: Option<Code>) returns (code: Option<Code>)
    ensures code == OverlapVerdict(parts, p, ipv6, |parts|, before)
  {
    hide Overlap, Agree;
    code := before;
    var k := 0;
    while k < |parts|
      invariant 0 <= k <= |parts|
      invariant code == OverlapVerdict(parts, p, ipv6, k, before)
    {
      if Overlap(parts[k], p) {
        if ipv6 {
          code := Some(Ipv6Overlap);
        } else if !Agree(parts[k], p) {
          code := Some(ConflictingBytes);
        }
      }
      k := k + 1;
    }
  }

  method AnyOutside(parts: seq<Part>, total: nat) returns (found: bool)
    ensures found <==> exists i | 0 <= i < |parts| :: Outside(parts[i], total)
  {
    var k := 0;
    while k < |parts|
      invariant 0 <= k <= |parts|
      invariant forall i | 0 <= i < k :: !Outside(parts[i], total)
    {
      if Outside(parts[k], total) {
        return true;
      }
      k := k + 1;
    }
    found := false;
  }

  /** Decide whether a part contradicts its set. */
  method Judge(s: FragmentSet, p: Part, ipv6: bool) returns (code: Option<Code>)
    ensures code == Verdict(s, p, ipv6)
  {
    hide Outside, OverlapVerdict;
    var rejection: Option<Code> := None;
    if !p.more && s.end.Some? && s.end.value != p.End() {
      rejection := Some(ConflictingTerminal);
    }
    var end := EndAfter(s, p);
    if end.Some? {
      var found := AnyOutside(s.parts, end.value);
      if Outside(p, end.value) || found {
        rejection := Some(OutsideTerminal);
      }
    }
    code := CheckOverlaps(s.parts, p, ipv6, rejection);
  }

  /** Walk the parts in order until the first hole. */
  method Coverage(parts: seq<Part>) returns (cursor: nat)
    ensures cursor == Cursor(parts, 0, 0)
  {
    cursor := 0;
    var k := 0;
    while k < |parts| && parts[k].start <= cursor
      invariant 0 <= k <= |parts|
      invariant Cursor(parts, 0, 0) == Cursor(parts, k, cursor)
    {
      cursor := Max(cursor, parts[k].End());
      k := k + 1;
    }
  }

  /** Concatenate the parts, skipping bytes already joined; no slice or append can fail. */
  method JoinAll(parts: seq<Part>) returns (joined: Evidence)
    requires PartsOk(parts) && Contiguous(parts, |parts|)
    ensures joined == Joined(parts, |parts|)
  {
    hide Tiled, Slice, Append, Joined, Reach, PartOk;
    joined := EMPTY;
    NothingJoined(parts);
    var k := 0;
    while k < |parts|
      invariant 0 <= k <= |parts|
      invariant joined == Joined(parts, k)
    {
      ContiguousTo(parts, k);
      JoinedSize(parts, k);
      var p := parts[k];
      assert PartOk(p) && p.start <= Reach(parts, k);
      JoinedStep(parts, k + 1);
      PartBounds(p);
      var skip := Min(SaturatingSub(|joined.data|, p.start), |p.bytes.data|);
      if skip < |p.bytes.data| {
        var tail := Slice(p.bytes, skip, |p.bytes.data|);
        assert tail.Ok?;
        var next := Append(joined, tail.value, MAX_DATAGRAM);
        assert next.Ok?;
        joined := next.value;
      }
      k := k + 1;
    }
  }

  lemma {:induction false} ContiguousTo(parts: seq<Part>, k: nat)
    requires k <= |parts| && Contiguous(parts, |parts|)
    ensures Contiguous(parts, k)
  {
    hide Reach;
  }

  /** Offer a fragment to its set, as one in-place update would. */
  method OfferTo(s: FragmentSet, d: Datagram, info: FragmentInfo, packets: set<PacketId>) returns (step: SetStep)
    ensures step == Offer(s, d, info, packets)
  {
    hide Verdict, Insert, Cursor, TemplateAfter;
    var set_ := s.(packets := packets);
    if set_.poisoned {
      return SetRejected(set_, Quarantined);
    }
    var p := Part(info.offset, info.more, d.payload);
    var verdict := Judge(set_, p, d.ipv6);
    set_ := set_.(template := TemplateAfter(set_.template, d, info.offset), end := EndAfter(set_, p));
    if verdict.Some? {
      return SetRejected(set_.(poisoned := true), verdict.value);
    }
    set_ := set_.(parts := Insert(set_.parts, p));
    if set_.end.Some? {
      var cursor := Coverage(set_.parts);
      if cursor == set_.end.value {
        if set_.end.value + Overhead(set_.template, d.ipv6) > MAX_DATAGRAM {
          return SetRejected(set_.(poisoned := true), LengthOverflow);
        }
        return SetReady(set_);
      }
    }
    step := SetPending(set_);
  }

  ghost function NoticePackets(notices: seq<Notice>): set<PacketId> {
    set i, p | 0 <= i < |notices| && p in notices[i].packets :: p
  }

  lemma {:induction false} NoticeSnoc(notices: seq<Notice>, n: Notice)
    ensures NoticePackets(notices + [n]) == NoticePackets(notices) + n.packets
  {
    var more := notices + [n];
    forall p ensures p in NoticePackets(more) <==> p in NoticePackets(notices) + n.packets {
      if p in NoticePackets(notices) {
        var i :| 0 <= i < |notices| && p in notices[i].packets;
        assert more[i] == notices[i];
      }
      if p in n.packets {
        assert more[|notices|] == n;
      }
    }
  }

  /** A set is due exactly when its deadline is in the index and has been reached. */
  lemma {:induction false} DueByIndex(r: Reassembler, limits: Limits, frame: nat, k: Key)
    requires Sound(r, limits) && k in r.sets
    ensures Due(limits, r.sets[k], frame) <==> exists x | x in r.deadlines :: x.1 == k && x.0 <= frame
  {
    hide SetOk, TotalParts;
    if Due(limits, r.sets[k], frame) {
      InDeadlines(r.sets, limits, (Deadline(limits, r.sets[k].firstFrame).value, k));
    }
    forall x | x in r.deadlines && x.1 == k && x.0 <= frame ensures Due(limits, r.sets[k], frame) {
      InDeadlines(r.sets, limits, x);
    }
  }

  class FragmentReassembler {
    var sets: map<Key, FragmentSet>
    var deadlines: set<(nat, Key)>
    var retained: nat
    const limits: Limits

    ghost function State(): Reassembler
      reads this
    {
      Reassembler(sets, deadlines, retained)
    }

    constructor (limits: Limits)
      ensures State() == NO_SETS && this.limits == limits && Sound(State(), limits)
    {
      this.sets := map[];
      this.deadlines := {};
      this.retained := 0;
      this.limits := limits;
      new;
      NothingHeld(limits);
    }

    /** Drop a set together with its deadline and its share of the byte account. */
    method RemoveSet(key: Key) returns (s: FragmentSet)
      requires key in sets && PartsLength(sets[key].parts) <= retained
      modifies this
      ensures s == old(sets[key]) && State() == Remove(old(State()), limits, key)
    {
      s := sets[key];
      sets := sets - {key};
      if Deadline(limits, s.firstFrame).Some? {
        deadlines := deadlines - {(Deadline(limits, s.firstFrame).value, key)};
      }
      retained := retained - PartsLength(s.parts);
    }

    /** Expire exactly the sets whose lifetime has passed, and report their packets. */
    method Expire(frame: nat) returns (notices: seq<Notice>)
      requires Sound(State(), limits)
      modifies this
      ensures Sound(State(), limits)
      ensures sets == Survivors(old(sets), limits, frame) && State() == Expired(old(State()), limits, frame)
      ensures forall i | 0 <= i < |notices| :: notices[i].code == ExpiredSet
      ensures NoticePackets(notices) + Live(State()) == old(Live(State()))
    {
      hide Sound, Remove, PartsLength, Live, NoticePackets, Due, Survivors;
      notices := [];
      ghost var start := sets;
      NoNotices();
      while exists x | x in deadlines :: x.0 <= frame
        invariant Sound(State(), limits)
        invariant Expiring(start, sets, limits, frame)
        invariant forall i | 0 <= i < |notices| :: notices[i].code == ExpiredSet
        invariant NoticePackets(notices) + Live(State()) == old(Live(State()))
        decreases |sets|
      {
        var x :| x in deadlines && x.0 <= frame;
        IndexedSetLives(State(), limits, x, frame);
        RemoveSound(State(), limits, x.1);
        RemovePackets(State(), limits, x.1);
        Smaller(sets, x.1);
        var s := RemoveSet(x.1);
        NoticeSnoc(notices, Notice(ExpiredSet, s.packets));
        notices := notices + [Notice(ExpiredSet, s.packets)];
      }
      SurvivorsReached(State(), limits, start, frame);
      ExpiredSound(old(State()), limits, frame);
      SoundUnique(State(), Expired(old(State()), limits, frame), limits);
    }

    /** Store what offering the fragment did to its set. */
    method Store(d: Datagram, key: Key, admitted: set<PacketId>, size: nat) returns (r: Result<Outcome>)
      requires Sound(State(), limits) && d.fragment.Some? && key == KeyFor(d, d.fragment.value)
      requires Admitted(State(), limits, d, key, admitted, size)
      modifies this
      ensures (State(), r) == Settle(old(State()), limits, key, Offer(old(sets)[key], d, d.fragment.value, admitted), size)
    {
      hide Sound, Offer, PartsLength, Joined, Packets, PartOk, Contiguous;
      var info := d.fragment.value;
      var step := OfferTo(sets[key], d, info, admitted);
      if step.SetReady? {
        ReadyFacts(State(), limits, d, admitted, size);
      }
      sets := sets[key := step.set_];
      match step {
        case SetRejected(s, code) =>
          if code == LengthOverflow {
            retained := size;
          }
          r := Ok(Rejected(Notice(code, s.packets)));
        case SetPending(s) =>
          retained := size;
          r := Ok(Pending);
        case SetReady(s) =>
          retained := size;
          var done := RemoveSet(key);
          var payload := JoinAll(done.parts);
          r := Ok(Complete(done.template.(payload := payload, fragment := None), done.packets));
      }
    }

    method Push(d: Datagram, frame: nat) returns (r: Result<Outcome>)
      requires Sound(State(), limits)
      modifies this
      ensures Sound(State(), limits)
      ensures (State(), r) == FragmentSets.Push(old(State()), limits, d, frame)
    {
      hide Sound, Offer, Valid, Packets, Settle, PartOk;
      PushSound(State(), limits, d, frame);
      if !limits.Valid() {
        return Err(LIMITS_ERROR);
      }
      if d.fragment.None? {
        return Ok(Complete(d, Packets(d.payload)));
      }
      var info := d.fragment.value;
      var key := KeyFor(d, info);
      if info.offset + |d.payload.data| > USIZE_MAX {
        return Err(Limit("fragment_range"));
      }
      if info.offset + |d.payload.data| > MAX_DATAGRAM || d.payload.data == [] {
        return Ok(Rejected(Notice(InvalidRange, Packets(d.payload))));
      }
      if !Valid(d.payload) {
        return Err(LAYOUT_ERROR);
      }
      var known := key in sets;
      var admitted := (if known then sets[key].packets else {}) + Packets(d.payload);
      if |admitted| > limits.maxFragmentsPerSet || (known && |sets[key].parts| >= limits.maxFragmentsPerSet) {
        return Err(Limit("fragments_per_set"));
      }
      var size := if known && sets[key].poisoned then retained else retained + |d.payload.data|;
      if size > limits.maxRetainedPayload {
        return Err(Limit("fragment_payload"));
      }
      if !known {
        if |sets| >= limits.maxFragmentSets {
          return Err(Limit("fragment_sets"));
        }
        if Deadline(limits, frame).Some? {
          deadlines := deadlines + {(Deadline(limits, frame).value, key)};
        }
        sets := sets[key := NewSet(d, frame)];
      }
      HeldReady(old(State()), State(), limits, d, frame);
      r := Store(d, key, admitted, size);
    }

    /** At the end of the capture every live set is reported. */
    method Finish() returns (notices: seq<Notice>)
      ensures NoticePackets(notices) == Live(State())
    {
      notices := [];
      NoNotices();
      var todo := sets;
      ghost var left := Reassembler(todo, {}, 0);
      LiveAlike(left, State());
      while todo != map[]
        invariant NoticePackets(notices) + Live(Reassembler(todo, {}, 0)) == Live(State())
        decreases |todo|
      {
        hide Live, NoticePackets;
        SomeKeyExists(todo);
        var k :| k in todo;
        var s := todo[k];
        var n := Notice(if s.poisoned then QuarantineAtEof else IncompleteAtEof, s.packets);
        NoticeSnoc(notices, n);
        LiveRemove(Reassembler(todo, {}, 0), k);
        Smaller(todo, k);
        notices := notices + [n];
        todo := todo - {k};
      }
      assert Live(Reassembler(map[], {}, 0)) == {};
    }
  }

  /** Some due sets have been removed and nothing else has changed. */
  ghost predicate Expiring(start: map<Key, FragmentSet>, sets: map<Key, FragmentSet>, limits: Limits, frame: nat) {
    && (forall k | k in sets :: k in start && sets[k] == start[k])
    && (forall k | k in start && k !in sets :: Due(limits, start[k], frame))
  }

  lemma {:induction false} SurvivorsReached(r: Reassembler, limits: Limits, start: map<Key, FragmentSet>, frame: nat)
    requires Sound(r, limits) && Expiring(start, r.sets, limits, frame)
    requires !exists x | x in r.deadlines :: x.0 <= frame
    ensures r.sets == Survivors(start, limits, frame)
  {
    hide Sound, Due;
    forall k | k in r.sets ensures !Due(limits, r.sets[k], frame) {
      DueByIndex(r, limits, frame, k);
    }
  }

  lemma {:induction false} SomeKeyExists(sets: map<Key, FragmentSet>)
    requires sets != map[]
    ensures exists k :: k in sets
  {
    assert (forall k :: k !in sets) ==> sets == map[];
  }

  lemma {:induction false} NothingHeld(limits: Limits)
    ensures Sound(NO_SETS, limits)
  {
  }

  lemma {:induction false} NoNotices()
    ensures NoticePackets([]) == {}
  {
  }

  lemma {:induction false} IndexedSetLives(r: Reassembler, limits: Limits, x: (nat, Key), frame: nat)
    requires Sound(r, limits) && x in r.deadlines && x.0 <= frame
    ensures x.1 in r.sets && Due(limits, r.sets[x.1], frame)
  {
    hide SetOk, TotalParts;
    InDeadlines(r.sets, limits, x);
  }

  lemma {:induction false} RemovePackets(r: Reassembler, limits: Limits, key: Key)
    requires key in r.sets && PartsLength(r.sets[key].parts) <= r.retained
    ensures Remove(r, limits, key).sets == r.sets - {key}
    ensures Live(Remove(r, limits, key)) + r.sets[key].packets == Live(r)
  {
    hide PartsLength;
    LiveRemove(r, key);
    LiveAlike(Remove(r, limits, key), r.(sets := r.sets - {key}));
  }

  /** What holds once the entry checks have passed and the set is in place. */
  lemma {:induction false} HeldReady(before: Reassembler, held: Reassembler, limits: Limits, d: Datagram, frame: nat)
    requires Sound(before, limits) && PushAdmits(before, limits, d) && held == Held(before, limits, d, frame)
    ensures Sound(held, limits) && held.retained == before.retained && KeyFor(d, d.fragment.value) in held.sets
    ensures Admitted(held, limits, d, KeyFor(d, d.fragment.value), AdmittedPackets(before, d), AdmittedSize(before, d))
    ensures FragmentSets.Push(before, limits, d, frame)
         == Settle(held, limits, KeyFor(d, d.fragment.value),
                   Offer(held.sets[KeyFor(d, d.fragment.value)], d, d.fragment.value, AdmittedPackets(before, d)),
                   AdmittedSize(before, d))
  {
    hide *;
    HeldSound(before, limits, d, frame);
  }

  lemma {:induction false} ReadyFacts(held: Reassembler, limits: Limits, d: Datagram, packets: set<PacketId>, size: nat)
    requires d.fragment.Some? && Sound(held, limits)
    requires Admitted(held, limits, d, KeyFor(d, d.fragment.value), packets, size)
    requires Offer(held.sets[KeyFor(d, d.fragment.value)], d, d.fragment.value, packets).SetReady?
    ensures var s := Offer(held.sets[KeyFor(d, d.fragment.value)], d, d.fragment.value, packets).set_;
            PartsLength(s.parts) <= size && PartsOk(s.parts) && Contiguous(s.parts, |s.parts|)
  {
    hide Offer, PartsLength, Sound, SetOk, PartOk, Insert, Packets;
    var key := KeyFor(d, d.fragment.value);
    SoundAccount(held, limits, key);
    OfferSound(held.sets[key], d, d.fragment.value, packets);
    InsertLength(held.sets[key].parts, Part(d.fragment.value.offset, d.fragment.value.more, d.payload));
  }
}
