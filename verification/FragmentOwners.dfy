/** Who owns a packet: at most one live set, and never again once its datagram is complete. */
module FragmentOwners {
  import opened Common
  import opened Provenance
  import opened FragmentSets
  import opened FragmentParts
  import opened FragmentSafety
  import opened FragmentRuns

  // ---------------------------------------------------------------- packets of joined evidence

  function Named(spans: seq<Span>): set<PacketId> {
    set i | 0 <= i < |spans| :: spans[i].packet
  }

  lemma {:induction false} NamedConcat(s: seq<Span>, t: seq<Span>)
    ensures Named(s + t) == Named(s) + Named(t)
  {
    forall p ensures p in Named(s + t) <==> p in Named(s) + Named(t) {
      if p in Named(s) {
        var i :| 0 <= i < |s| && s[i].packet == p;
        assert (s + t)[i] == s[i];
      }
      if p in Named(t) {
        var i :| 0 <= i < |t| && t[i].packet == p;
        assert (s + t)[|s| + i] == t[i];
      }
    }
  }

  lemma {:induction false} NamedSlice(spans: seq<Span>, lo: nat, hi: nat)
    ensures Named(SliceSpans(spans, lo, hi)) <= Named(spans)
  {
    if spans != [] {
      var init, last := spans[..|spans| - 1], spans[|spans| - 1];
      NamedSlice(init, lo, hi);
      NamedConcat(SliceSpans(init, lo, hi), Clip(last, lo, hi));
      NamedConcat(init, [last]);
      assert spans == init + [last];
      NamedClip(last, lo, hi);
    }
  }

  lemma {:induction false} NamedClip(s: Span, lo: nat, hi: nat)
    ensures Named(Clip(s, lo, hi)) <= Named([s])
  {
    assert [s][0].packet in Named([s]);
  }

  lemma {:induction false} NamedJoin(spans: seq<Span>, next: Span)
    ensures Named(Join(spans, next)) <= Named(spans) + {next.packet}
  {
    var r := Join(spans, next);
    forall i | 0 <= i < |r| ensures r[i].packet in Named(spans) + {next.packet} {
      if i < |spans| {
        assert r[i].packet == spans[i].packet;
      }
    }
  }

  lemma {:induction false} NamedAppend(spans: seq<Span>, base: nat, more: seq<Span>)
    ensures Named(AppendSpans(spans, base, more)) <= Named(spans) + Named(more)
  {
    if more != [] {
      var init, last := more[..|more| - 1], more[|more| - 1];
      NamedAppend(spans, base, init);
      NamedJoin(AppendSpans(spans, base, init), Shift(last, base));
      NamedConcat(init, [last]);
      assert more == init + [last];
      assert [last][0].packet in Named([last]);
    }
  }

  lemma {:induction false} PacketsNamed(e: Evidence)
    ensures Packets(e) == Named(e.spans)
  {
  }

  /** Joining parts brings in no packet that is not a part's. */
  lemma {:induction false} JoinedPackets(s: FragmentSet, k: nat)
    requires PacketsKept(s) && k <= |s.parts|
    ensures Packets(Joined(s.parts, k)) <= s.packets
  {
    hide SliceSpans, AppendSpans, Named, Packets;
    PacketsNamed(Joined(s.parts, k));
    if k == 0 {
      NamedNothing();
    } else {
      JoinedPackets(s, k - 1);
      var before, p := Joined(s.parts, k - 1), s.parts[k - 1];
      PacketsNamed(before);
      PacketsNamed(p.bytes);
      var skip := Min(SaturatingSub(|before.data|, p.start), |p.bytes.data|);
      NamedSlice(p.bytes.spans, skip, |p.bytes.data|);
      NamedAppend(before.spans, |before.data|, SliceSpans(p.bytes.spans, skip, |p.bytes.data|));
    }
  }

  lemma {:induction false} NamedNothing()
    ensures Named([]) == {}
  {
  }

  // ---------------------------------------------------------------- sets hold different packets

  ghost predicate Apart(r: Reassembler) {
    forall j, k | j in r.sets && k in r.sets && j != k :: r.sets[j].packets !! r.sets[k].packets
  }

  lemma {:induction false} OfferPackets(s: FragmentSet, d: Datagram, info: FragmentInfo, packets: set<PacketId>)
    requires SetOk(s, d.ipv6) && s.packets <= packets && Packets(d.payload) <= packets
    ensures var step := Offer(s, d, info, packets);
            step.set_.packets == packets && (step.SetReady? ==> PacketsKept(step.set_))
  {
    hide PartsOk, SortedParts, AllCompatible, EndConsistent, FragmentSafety.Covered, Insert, Verdict, Cursor, TemplateAfter, Packets;
    InsertPackets(s, Part(info.offset, info.more, d.payload), packets);
  }

  /** What a push leaves of its own set, and what it hands back. */
  lemma {:induction false} SettleOwners(r: Reassembler, limits: Limits, d: Datagram, key: Key, packets: set<PacketId>, size: nat)
    requires Sound(r, limits) && Admitted(r, limits, d, key, packets, size)
    ensures var (after, outcome) := Settle(r, limits, key, Offer(r.sets[key], d, d.fragment.value, packets), size);
            && outcome.Ok?
            && (key in after.sets ==> after.sets[key].packets == packets)
            && (outcome.value.Complete? ==>
                  key !in after.sets && outcome.value.packets == packets && Packets(outcome.value.datagram.payload) <= packets)
  {
    hide Offer, SetOk, TotalParts, DeadlinesOf, PartOk, Packets, Joined, PacketsKept, PartsLength;
    SettlePackets(r, limits, d, key, packets, size);
    var step := Offer(r.sets[key], d, d.fragment.value, packets);
    assert SetOk(r.sets[key], key.ipv6);
    OfferPackets(r.sets[key], d, d.fragment.value, packets);
    if step.SetReady? {
      JoinedPackets(step.set_, |step.set_.parts|);
    }
  }

  ghost predicate Alone(r: Reassembler, key: Key, packets: set<PacketId>) {
    forall k | k in r.sets && k != key :: r.sets[k].packets !! packets
  }

  lemma {:induction false} NotLive(r: Reassembler, packets: set<PacketId>)
    requires packets !! Live(r)
    ensures forall k | k in r.sets :: r.sets[k].packets !! packets
  {
  }

  lemma {:induction false} AdmittedAlone(r: Reassembler, d: Datagram)
    requires d.fragment.Some? && Apart(r) && Packets(d.payload) !! Live(r)
    ensures Alone(r, KeyFor(d, d.fragment.value), AdmittedPackets(r, d))
  {
    hide Packets, Live;
    NotLive(r, Packets(d.payload));
  }

  lemma {:induction false} AdmittedHas(r: Reassembler, d: Datagram)
    requires d.fragment.Some?
    ensures Packets(d.payload) <= AdmittedPackets(r, d)
  {
    hide Packets;
  }

  /**
   A push of packets no set holds keeps every packet in at most one set. When it completes a datagram,
   the packets handed back are in no set, and the datagram's bytes come from those packets alone.
   */
  lemma {:induction false} PushApart(r: Reassembler, limits: Limits, d: Datagram, frame: nat)
    requires Sound(r, limits) && Apart(r) && Packets(d.payload) !! Live(r)
    ensures Apart(Push(r, limits, d, frame).0)
    ensures var (after, outcome) := Push(r, limits, d, frame);
            outcome.Ok? && outcome.value.Complete? ==>
              && outcome.value.packets !! Live(after) && Packets(d.payload) <= outcome.value.packets
              && Packets(outcome.value.datagram.payload) <= outcome.value.packets
  {
    hide Push, Sound, Packets, Settle, Offer, PartOk, Held, AdmittedPackets, AdmittedSize, Live;
    if PushAdmits(r, limits, d) {
      var key := KeyFor(d, d.fragment.value);
      var (after, outcome) := Push(r, limits, d, frame);
      HeldSound(r, limits, d, frame);
      AdmittedAlone(r, d);
      AdmittedHas(r, d);
      SettleOwners(Held(r, limits, d, frame), limits, d, key, AdmittedPackets(r, d), AdmittedSize(r, d));
      forall k | k != key ensures k in after.sets <==> k in r.sets
        ensures k in r.sets ==> after.sets[k] == r.sets[k]
      {
        OtherSetsUntouched(r, limits, d, frame, k);
      }
      if outcome.Ok? && outcome.value.Complete? {
        AloneIsApart(after, AdmittedPackets(r, d));
      }
    } else {
      PushRefused(r, limits, d, frame);
    }
  }

  lemma {:induction false} AloneIsApart(r: Reassembler, packets: set<PacketId>)
    requires forall k | k in r.sets :: r.sets[k].packets !! packets
    ensures packets !! Live(r)
  {
  }

  lemma {:induction false} ExpiredApart(r: Reassembler, limits: Limits, frame: nat)
    requires Apart(r)
    ensures Apart(Expired(r, limits, frame))
  {
    hide Due, TotalParts, DeadlinesOf;
  }
}
