/** What every run of the reassembler keeps: byte account, deadline index, quarantine and packets. */
module FragmentSafety {
  import opened Common
  import opened Provenance
  import opened FragmentSets
  import opened FragmentParts

  // ---------------------------------------------------------------- one set

  ghost predicate EndConsistent(s: FragmentSet) {
    if s.end.Some? then
      && s.end.value <= MAX_DATAGRAM
      && (forall i | 0 <= i < |s.parts| :: !Outside(s.parts[i], s.end.value))
    else forall i | 0 <= i < |s.parts| :: s.parts[i].more
  }

  predicate Covered(s: FragmentSet) {
    s.end.Some? && Cursor(s.parts, 0, 0) == s.end.value
  }

  ghost predicate PacketsKept(s: FragmentSet) {
    forall i | 0 <= i < |s.parts| :: Packets(s.parts[i].bytes) <= s.packets
  }

  /** A live set: sound parts, and unless quarantined mutually consistent and not yet complete. */
  ghost predicate SetOk(s: FragmentSet, ipv6: bool) {
    && PartsOk(s.parts) && SortedParts(s.parts) && PacketsKept(s)
    && (!s.poisoned ==> AllCompatible(s.parts, ipv6) && EndConsistent(s) && !Covered(s))
  }

  lemma {:induction false} OverlapVerdictNone(parts: seq<Part>, p: Part, ipv6: bool, k: nat, before: Option<Code>)
    requires k <= |parts| && OverlapVerdict(parts, p, ipv6, k, before).None?
    ensures before.None? && forall i | 0 <= i < k :: Compatible(parts[i], p, ipv6)
  {
    hide Overlap, Window;
    if k > 0 {
      OverlapVerdictNone(parts, p, ipv6, k - 1, before);
    }
  }

  /** A part without a verdict against it fits its set. */
  lemma {:induction false} VerdictNone(s: FragmentSet, p: Part, ipv6: bool)
    requires Verdict(s, p, ipv6).None? && !s.poisoned && SetOk(s, ipv6) && PartOk(p)
    ensures forall i | 0 <= i < |s.parts| :: Compatible(s.parts[i], p, ipv6)
    ensures EndConsistent(s.(end := EndAfter(s, p), parts := Insert(s.parts, p)))
  {
    hide Compatible, PartOk, Insert, Covered, AllCompatible, OverlapVerdict;
    var first := if !p.more && s.end.Some? && s.end.value != p.End() then Some(ConflictingTerminal) else None;
    var end := EndAfter(s, p);
    var second :=
      if end.Some? && (Outside(p, end.value) || exists i | 0 <= i < |s.parts| :: Outside(s.parts[i], end.value))
      then Some(OutsideTerminal) else first;
    OverlapVerdictNone(s.parts, p, ipv6, |s.parts|, second);
    PartBounds(p);
    var r := s.(end := end, parts := Insert(s.parts, p));
    forall i | 0 <= i < |r.parts|
      ensures if end.Some? then !Outside(r.parts[i], end.value) else r.parts[i].more
    {
      InsertMember(s.parts, p, r.parts[i]);
      if r.parts[i] != p {
        var j :| 0 <= j < |s.parts| && s.parts[j] == r.parts[i];
      }
    }
  }

  lemma {:induction false} PartBounds(p: Part)
    requires PartOk(p)
    ensures p.start < p.End() <= MAX_DATAGRAM && Valid(p.bytes)
  {
    hide Tiled;
  }

  lemma {:induction false} InsertPackets(s: FragmentSet, p: Part, packets: set<PacketId>)
    requires PacketsKept(s) && s.packets <= packets && Packets(p.bytes) <= packets
    ensures PacketsKept(s.(packets := packets))
    ensures PacketsKept(s.(packets := packets, parts := Insert(s.parts, p)))
  {
    hide Packets, Insert;
    var r := s.(packets := packets, parts := Insert(s.parts, p));
    forall i | 0 <= i < |r.parts| ensures Packets(r.parts[i].bytes) <= r.packets {
      InsertMember(s.parts, p, r.parts[i]);
      if r.parts[i] != p {
        var j :| 0 <= j < |s.parts| && s.parts[j] == r.parts[i];
      }
    }
  }

  /** A finished set, ready to be joined. */
  ghost predicate ReadyOk(s: FragmentSet, ipv6: bool) {
    && PartsOk(s.parts) && SortedParts(s.parts) && AllCompatible(s.parts, ipv6) && !s.poisoned
    && s.end.Some? && EndConsistent(s) && s.end.value + Overhead(s.template, ipv6) <= MAX_DATAGRAM
    && Contiguous(s.parts, |s.parts|) && Reach(s.parts, |s.parts|) == s.end.value
  }

  lemma {:induction false} CoveredMeans(s: FragmentSet)
    requires PartsOk(s.parts) && s.end.Some? && EndConsistent(s)
    ensures Covered(s) <==> Contiguous(s.parts, |s.parts|) && Reach(s.parts, |s.parts|) == s.end.value
  {
    hide PartOk, Cursor;
    forall i | 0 <= i < |s.parts| ensures s.parts[i].start < s.parts[i].End() <= s.end.value {
      assert PartOk(s.parts[i]);
      PartBounds(s.parts[i]);
    }
    CursorCovers(s.parts, 0, s.end.value);
  }

  /** What offering a fragment does: the set stays sound, and only a covered set is ready. */
  lemma {:induction false} OfferSound(s: FragmentSet, d: Datagram, info: FragmentInfo, packets: set<PacketId>)
    requires SetOk(s, d.ipv6) && PartOk(Part(info.offset, info.more, d.payload))
    requires s.packets <= packets && Packets(d.payload) <= packets
    ensures var step := Offer(s, d, info, packets);
            && step.set_.packets == packets && step.set_.firstFrame == s.firstFrame
            && (s.poisoned ==> step.SetRejected?)
            && (step.SetReady? ==> ReadyOk(step.set_, d.ipv6))
            && (!step.SetReady? ==> SetOk(step.set_, d.ipv6))
            && (step.SetRejected? <==> step.set_.poisoned)
            && (step.SetRejected? && step.code != LengthOverflow ==> step.set_.parts == s.parts)
            && (step.SetRejected? && step.code == LengthOverflow ==>
                  !s.poisoned && step.set_.parts == Insert(s.parts, Part(info.offset, info.more, d.payload)))
            && (!step.SetRejected? ==> step.set_.parts == Insert(s.parts, Part(info.offset, info.more, d.payload)))
  {
    hide PartOk, Insert, Verdict, TemplateAfter, EndConsistent, Covered, AllCompatible, SortedParts, Packets, Contiguous, Reach, PacketsKept;
    var p := Part(info.offset, info.more, d.payload);
    InsertPackets(s, p, packets);
    PacketsKeptAlike(s.(packets := packets));
    PacketsKeptAlike(s.(packets := packets, parts := Insert(s.parts, p)));
    InsertSorted(s.parts, p);
    InsertOk(s.parts, p, d.ipv6);
    var s1 := s.(packets := packets);
    VerdictCode(s1, p, d.ipv6);
    if !s.poisoned && Verdict(s1, p, d.ipv6).None? {
      SetOkPackets(s, packets, d.ipv6);
      VerdictNone(s1, p, d.ipv6);
      var s3 := s1.(template := TemplateAfter(s1.template, d, info.offset), end := EndAfter(s1, p), parts := Insert(s1.parts, p));
      EndConsistentIgnores(s1.(end := EndAfter(s1, p), parts := Insert(s1.parts, p)), s3);
      CoveredIs(s3);
      if s3.end.Some? {
        CoveredMeans(s3);
      }
    }
  }

  lemma {:induction false} PacketsKeptAlike(s: FragmentSet)
    requires PacketsKept(s)
    ensures forall r: FragmentSet | r.packets == s.packets && r.parts == s.parts :: PacketsKept(r)
  {
    hide Packets;
  }

  lemma {:induction false} SetOkPackets(s: FragmentSet, packets: set<PacketId>, ipv6: bool)
    requires SetOk(s, ipv6) && s.packets <= packets
    ensures SetOk(s.(packets := packets), ipv6)
  {
    hide PartOk, Cursor, Packets;
  }

  lemma {:induction false} VerdictCode(s: FragmentSet, p: Part, ipv6: bool)
    ensures Verdict(s, p, ipv6) != Some(LengthOverflow)
  {
    OverlapCode(s.parts, p, ipv6, |s.parts|, None);
    OverlapCode(s.parts, p, ipv6, |s.parts|, Some(OutsideTerminal));
    OverlapCode(s.parts, p, ipv6, |s.parts|, Some(ConflictingTerminal));
  }

  lemma {:induction false} OverlapCode(parts: seq<Part>, p: Part, ipv6: bool, k: nat, before: Option<Code>)
    requires k <= |parts| && before != Some(LengthOverflow)
    ensures OverlapVerdict(parts, p, ipv6, k, before) != Some(LengthOverflow)
  {
    if k > 0 {
      OverlapCode(parts, p, ipv6, k - 1, before);
    }
  }

  lemma {:induction false} EndConsistentIgnores(a: FragmentSet, b: FragmentSet)
    requires EndConsistent(a) && a.end == b.end && a.parts == b.parts
    ensures EndConsistent(b)
  {
  }

  lemma {:induction false} CoveredIs(s: FragmentSet)
    ensures Covered(s) <==> s.end.Some? && Cursor(s.parts, 0, 0) == s.end.value
  {
  }

  /**
   A completed payload has exactly the terminal length, agrees with every accepted part at every
   position, and each of its bytes comes with the origin some part gave it.
   */
  lemma {:induction false} CompletedPayload(s: FragmentSet, ipv6: bool)
    requires ReadyOk(s, ipv6)
    ensures var payload := Joined(s.parts, |s.parts|);
            && Valid(payload) && |payload.data| == s.end.value
            && (forall i, x | 0 <= i < |s.parts| && Holds(s.parts[i], x) :: PlacedAt(payload, s.parts[i], x))
            && (forall x | 0 <= x < |payload.data| :: JoinedFrom(s.parts, |s.parts|, x, At(payload, x)))
  {
    hide Tiled, Joined, PartOk, AllCompatible, Contiguous, JoinedFrom, At;
    JoinedSize(s.parts, |s.parts|);
    forall i, x | 0 <= i < |s.parts| && Holds(s.parts[i], x)
      ensures PlacedAt(Joined(s.parts, |s.parts|), s.parts[i], x)
    {
      JoinedAgrees(s.parts, ipv6, i, x);
    }
    forall x | 0 <= x < |Joined(s.parts, |s.parts|).data|
      ensures JoinedFrom(s.parts, |s.parts|, x, At(Joined(s.parts, |s.parts|), x))
    {
      JoinedOrigins(s.parts, |s.parts|, x);
    }
  }

  /** The payload repeats the part's byte at position x. */
  ghost predicate PlacedAt(payload: Evidence, p: Part, x: int)
    requires Holds(p, x)
  {
    0 <= x < |payload.data| && payload.data[x] == p.bytes.data[x - p.start]
  }
}
