/** What every run of a tuple keeps: bounds, sticky handshake evidence, and changes in one place only. */
module TupleSafety {
  import opened Common
  import opened Codec
  import opened HistoryModel
  import opened HistoryInput
  import opened Epochs
  import opened TupleStates
  import opened TupleCandidates

  // ---------------------------------------------------------------- selection

  lemma {:induction false} NearestIsLeast(cs: seq<Choice>, frontier: int, k: nat, i: nat)
    requires i < k <= |cs|
    ensures Distance(cs[NearestTo(cs, frontier, k)].offset, frontier) <= Distance(cs[i].offset, frontier)
  {
    if i < k - 1 {
      NearestIsLeast(cs, frontier, k - 1, i);
    }
  }

  /**
   A candidate is acted on exactly when it is the only one, or when the nearest-frontier policy is
   declared, all candidates lie in one generation and this one alone is nearest to its frontier.
   */
  lemma {:induction false} SelectExact(gs: seq<Generation>, cs: seq<Choice>, d: Direction, policy: EpochPolicy, j: nat)
    requires ValidChoices(cs, gs)
    ensures Select(gs, cs, d, policy).0 == Some(j) <==>
              && j < |cs|
              && (|| |cs| == 1
                  || (policy == NearestFrontier && OneGeneration(cs) && StrictlyNearest(cs, gs[cs[0].generation].high.At(d), j)))
    ensures Select(gs, cs, d, policy).1 <==> Select(gs, cs, d, policy).0.Some? && |cs| > 1
  {
    if |cs| > 1 && policy == NearestFrontier && OneGeneration(cs) {
      var frontier := gs[cs[0].generation].high.At(d);
      var best := NearestTo(cs, frontier, |cs|);
      if j < |cs| && StrictlyNearest(cs, frontier, j) && j != best {
        NearestIsLeast(cs, frontier, |cs|, j);
      }
    }
  }

  // ---------------------------------------------------------------- one generation

  ghost predicate Sticky<T>(before: Option<T>, after: Option<T>) {
    before.Some? ==> after == before
  }

  ghost predicate StickyBoth<T>(before: Both<Option<T>>, after: Both<Option<T>>) {
    Sticky(before.forward, after.forward) && Sticky(before.reverse, after.reverse)
  }

  /** Evidence once taken stays, bounds only widen, and a closed generation stays closed. */
  ghost predicate Evolved(g: Generation, h: Generation) {
    && h.id == g.id && h.birth == g.birth && h.midstream == g.midstream
    && StickyBoth(g.syn, h.syn) && StickyBoth(g.anchor, h.anchor) && StickyBoth(g.fin, h.fin)
    && h.low.forward <= g.low.forward && h.low.reverse <= g.low.reverse
    && g.high.forward <= h.high.forward && g.high.reverse <= h.high.reverse
    && (g.Closed() ==> h.Closed())
  }

  lemma {:induction false} EvolvedTransitive(f: Generation, g: Generation, h: Generation)
    requires Evolved(f, g) && Evolved(g, h)
    ensures Evolved(f, h)
  {
  }

  lemma {:induction false} EvolvedReflexive(g: Generation)
    ensures Evolved(g, g)
  {
  }

  lemma {:induction false} ExtendEvolves(g: Generation, p: Packet, at: i64)
    requires GenerationOk(g) && Respects(g, p, at) && Extend(g, p, at).Ok?
    ensures Evolved(g, Extend(g, p, at).value) && GenerationOk(Extend(g, p, at).value)
  {
    hide Congruent, Later;
  }

  /** The observation leaves its mark: its bytes lie within the bounds, its flags are recorded. */
  lemma {:induction false} ExtendRecords(g: Generation, p: Packet, at: i64)
    requires Extend(g, p, at).Ok?
    ensures var h := Extend(g, p, at).value;
            && h.low.At(p.direction) <= at && at + p.payload <= h.high.At(p.direction)
            && (p.syn ==> h.syn.At(p.direction) == Some(p.sequence))
            && h.anchor.At(p.direction).Some? && (p.fin ==> h.fin.At(p.direction).Some?) && (p.rst ==> h.Closed())
            && (forall d: Direction | d != p.direction ::
                  h.syn.At(d) == g.syn.At(d) && h.anchor.At(d) == g.anchor.At(d) && h.fin.At(d) == g.fin.At(d)
                  && h.low.At(d) == g.low.At(d) && h.high.At(d) == g.high.At(d))
  {
  }

  // ---------------------------------------------------------------- one observation

  ghost predicate StateOk(s: TupleState, c: Config) {
    AllOk(s.generations) && |s.generations| <= c.maxGenerations
  }

  /** The generations of s are still there, evolved; at most one new one follows them. */
  ghost predicate Grown(s: TupleState, t: TupleState) {
    && t.key == s.key && |s.generations| <= |t.generations|
    && (forall i | 0 <= i < |s.generations| :: Evolved(s.generations[i], t.generations[i]))
  }

  /** Only generation i may differ. */
  ghost predicate OnlyAt(s: TupleState, t: TupleState, i: nat) {
    && |s.generations| <= |t.generations| <= Max(|s.generations|, i + 1)
    && (forall k | 0 <= k < |s.generations| && k != i :: t.generations[k] == s.generations[k])
  }

  /** The decision names, for each candidate, the generation it stands in. */
  ghost predicate Explained(t: TupleState, cs: seq<Choice>, p: Packet, selected: Option<nat>, d: Decision) {
    && ValidChoices(cs, t.generations) && |d.placements| == |cs|
    && (forall j | 0 <= j < |cs| ::
          d.placements[j] == Placement(t.generations[cs[j].generation].id, p.direction, cs[j].offset, selected == Some(j)))
  }

  lemma {:induction false} DecideNone(s: TupleState, q: Gathered, p: Packet, c: Config, before: Digest, o: Opaque)
    requires ValidChoices(q.candidates, q.generations) && Decide(s, q, p, c, before, o).Ok?
    requires Select(q.generations, q.candidates, p.direction, c.epochPolicy).0.None?
    ensures var (t, d) := Decide(s, q, p, c, before, o).value;
            t == TupleState(s.key, q.generations) && Explained(t, q.candidates, p, None, d)
  {
    hide Select, EncodeState, Note, Extend, ExtendReasons;
  }

  lemma {:induction false} DecideSome(s: TupleState, q: Gathered, p: Packet, c: Config, before: Digest, o: Opaque)
    requires ValidChoices(q.candidates, q.generations) && Decide(s, q, p, c, before, o).Ok?
    requires Select(q.generations, q.candidates, p.direction, c.epochPolicy).0.Some?
    ensures var (t, d) := Decide(s, q, p, c, before, o).value;
            var j := Select(q.generations, q.candidates, p.direction, c.epochPolicy).0.value;
            && j < |q.candidates|
            && var i, x := q.candidates[j].generation, q.candidates[j].offset;
            && Extend(q.generations[i], p, x).Ok?
            && t == TupleState(s.key, q.generations[i := Extend(q.generations[i], p, x).value])
            && Explained(t, q.candidates, p, Some(j), d)
  {
    hide Select, EncodeState, Note, Extend, ExtendReasons;
    SelectedIndex(q.generations, q.candidates, p.direction, c.epochPolicy);
  }

  lemma {:induction false} NewbornOk(g: Generation, p: Packet)
    requires Newborn(g, p) && p.frame > 0
    ensures GenerationOk(g)
  {
  }

  lemma {:induction false} ExtendedOk(s: TupleState, q: Gathered, p: Packet, c: Config)
    requires StateOk(s, c) && Extended(s, q, p, c) && p.frame > 0
    ensures AllOk(q.generations) && |s.generations| <= |q.generations| <= c.maxGenerations
    ensures forall i | 0 <= i < |s.generations| :: q.generations[i] == s.generations[i]
  {
    hide GenerationOk, Newborn;
    if q.generations != s.generations {
      NewbornOk(q.generations[|s.generations|], p);
      forall i | 0 <= i < |s.generations| ensures q.generations[i] == s.generations[i] {
        assert q.generations[..|s.generations|][i] == s.generations[i];
      }
    }
  }

  /** The whole effect of a successful observation. */
  ghost predicate Effect(s: TupleState, t: TupleState, cs: seq<Choice>, p: Packet, selected: Option<nat>, d: Decision, c: Config) {
    && StateOk(t, c) && Grown(s, t) && InOrder(cs) && Explained(t, cs, p, selected, d)
    && (selected.None? ==> t == s)
    && (selected.Some? ==> selected.value < |cs| && OnlyAt(s, t, cs[selected.value].generation))
    && (forall j | 0 <= j < |cs| && cs[j].generation < |s.generations| ::
          Respects(s.generations[cs[j].generation], p, cs[j].offset))
  }

  lemma {:induction false} DecideEffect(s: TupleState, q: Gathered, p: Packet, c: Config, before: Digest, o: Opaque)
    requires StateOk(s, c) && Extended(s, q, p, c) && p.frame > 0 && InOrder(q.candidates) && AllRespect(q, p)
    requires ValidChoices(q.candidates, q.generations) && Decide(s, q, p, c, before, o).Ok?
    ensures var (t, d) := Decide(s, q, p, c, before, o).value;
            Effect(s, t, q.candidates, p, Select(q.generations, q.candidates, p.direction, c.epochPolicy).0, d, c)
  {
    hide Decide, Select, Extend, GenerationOk, Respects, Evolved, InOrder, Explained, Newborn;
    ExtendedOk(s, q, p, c);
    var (t, d) := Decide(s, q, p, c, before, o).value;
    var selected := Select(q.generations, q.candidates, p.direction, c.epochPolicy).0;
    if selected.None? {
      DecideNone(s, q, p, c, before, o);
      SingleIsSelected(q.generations, q.candidates, p.direction, c.epochPolicy);
      forall i | 0 <= i < |s.generations| ensures Evolved(s.generations[i], t.generations[i]) {
        EvolvedReflexive(s.generations[i]);
      }
    } else {
      DecideSome(s, q, p, c, before, o);
      var i, x := q.candidates[selected.value].generation, q.candidates[selected.value].offset;
      ExtendEvolves(q.generations[i], p, x);
      forall k | 0 <= k < |s.generations| ensures Evolved(s.generations[k], t.generations[k]) {
        EvolvedReflexive(s.generations[k]);
      }
    }
  }

  lemma {:induction false} SingleIsSelected(gs: seq<Generation>, cs: seq<Choice>, d: Direction, policy: EpochPolicy)
    requires ValidChoices(cs, gs) && Select(gs, cs, d, policy).0.None?
    ensures |cs| != 1
  {
  }

  /** The generation and offset behind each placement of a decision, in order. */
  function CandidatesFor(s: TupleState, input: TcpInput, source: SourceIdentity, c: Config, o: Opaque): seq<Choice>
    requires Place(s, input, source, c, o).Ok?
  {
    Gather(s, Derive(input, c, o).value, source, c, o).value.candidates
  }

  lemma {:induction false} PlaceEffect(s: TupleState, input: TcpInput, source: SourceIdentity, c: Config, o: Opaque)
      returns (selected: Option<nat>)
    requires StateOk(s, c) && c.Valid() && Place(s, input, source, c, o).Ok?
    ensures Derive(input, c, o).Ok?
    ensures var (t, d) := Place(s, input, source, c, o).value;
            Effect(s, t, CandidatesFor(s, input, source, c, o), Derive(input, c, o).value, selected, d, c)
  {
    hide Derive, Gather, Decide, EncodeState, Effect, StateOk, Select, Extended;
    var p := Derive(input, c, o).value;
    DerivedFields(input, c, o);
    var q := Gather(s, p, source, c, o).value;
    GatherValid(s, p, source, c, o);
    StateIs(s, c);
    GatherSound(s, p, source, c, o);
    DecideEffect(s, q, p, c, o.sha256(EncodeState(s, o).value), o);
    selected := Select(q.generations, q.candidates, p.direction, c.epochPolicy).0;
  }

  lemma {:induction false} StateIs(s: TupleState, c: Config)
    requires StateOk(s, c)
    ensures AllOk(s.generations)
  {
  }

  // ---------------------------------------------------------------- the interface

  /** No two placements of a decision coincide, as long as the generations have different digests. */
  ghost predicate DistinctIds(gs: seq<Generation>) {
    forall i, j | 0 <= i < j < |gs| :: gs[i].id != gs[j].id
  }

  ghost predicate DistinctPlacements(d: Decision) {
    forall i, j | 0 <= i < j < |d.placements| ::
      d.placements[i].generation != d.placements[j].generation || d.placements[i].offset != d.placements[j].offset
  }

  ghost predicate NoneSelected(d: Decision) {
    forall j | 0 <= j < |d.placements| :: !d.placements[j].selected
  }

  ghost predicate AtMostOneSelected(d: Decision) {
    forall i, j | 0 <= i < j < |d.placements| :: !(d.placements[i].selected && d.placements[j].selected)
  }

  /** Some generation is the only one that changed, and the decision selects it. */
  ghost predicate ChangedOnlySelected(s: TupleState, t: TupleState, d: Decision) {
    exists i, j | 0 <= i < |t.generations| && 0 <= j < |d.placements| ::
      d.placements[j].selected && d.placements[j].generation == t.generations[i].id && OnlyAt(s, t, i)
  }

  lemma {:induction false} EffectShows(s: TupleState, t: TupleState, cs: seq<Choice>, p: Packet, selected: Option<nat>, d: Decision, c: Config)
    requires Effect(s, t, cs, p, selected, d, c)
    ensures StateOk(t, c) && Grown(s, t) && AtMostOneSelected(d)
    ensures DistinctIds(t.generations) ==> DistinctPlacements(d)
    ensures if NoneSelected(d) then t == s else ChangedOnlySelected(s, t, d)
  {
    hide GenerationOk, Evolved, Respects, OnlyAt;
    if DistinctIds(t.generations) {
      forall i, j | 0 <= i < j < |d.placements|
        ensures d.placements[i].generation != d.placements[j].generation || d.placements[i].offset != d.placements[j].offset
      {
        assert Before(cs[i], cs[j]);
      }
    }
    if selected.Some? {
      var j := selected.value;
      assert d.placements[j].selected;
      assert d.placements[j].generation == t.generations[cs[j].generation].id;
    }
  }

  /**
   One observation: the state stays sound, evidence is sticky, at most one placement is selected,
   and the state changes in the selected generation only. A refused observation changes nothing.
   */
  lemma {:induction false} IngestSafe(s: TupleState, input: TcpInput, source: SourceIdentity, c: Config, o: Opaque)
    requires StateOk(s, c)
    ensures var (t, r) := Ingest(s, input, source, c, o);
            && StateOk(t, c) && Grown(s, t)
            && (r.Err? ==> t == s)
            && (r.Ok? ==>
                  && AtMostOneSelected(r.value) && (DistinctIds(t.generations) ==> DistinctPlacements(r.value))
                  && (if NoneSelected(r.value) then t == s else ChangedOnlySelected(s, t, r.value)))
  {
    hide Place, StateOk, Effect, AtMostOneSelected, DistinctIds, DistinctPlacements, NoneSelected, ChangedOnlySelected, EncodeKey, Grown;
    GrownReflexive(s);
    if c.Valid() && Place(s, input, source, c, o).Ok? {
      var selected := PlaceEffect(s, input, source, c, o);
      var (t, d) := Place(s, input, source, c, o).value;
      EffectShows(s, t, CandidatesFor(s, input, source, c, o), Derive(input, c, o).value, selected, d, c);
    }
  }

  lemma {:induction false} GrownReflexive(s: TupleState)
    ensures Grown(s, s)
  {
    hide Evolved;
    forall i | 0 <= i < |s.generations| ensures Evolved(s.generations[i], s.generations[i]) {
      EvolvedReflexive(s.generations[i]);
    }
  }

  lemma {:induction false} GrownTransitive(r: TupleState, s: TupleState, t: TupleState)
    requires Grown(r, s) && Grown(s, t)
    ensures Grown(r, t)
  {
    hide Evolved;
    forall i | 0 <= i < |r.generations| ensures Evolved(r.generations[i], t.generations[i]) {
      EvolvedTransitive(r.generations[i], s.generations[i], t.generations[i]);
    }
  }

  ghost predicate IsBareSyn(p: Packet) {
    p.syn && !p.ack
  }

  /** Two candidates never coincide, whatever the digests are. */
  ghost predicate DistinctChoices(cs: seq<Choice>) {
    forall i, j | 0 <= i < j < |cs| :: cs[i] != cs[j]
  }

  lemma {:induction false} InOrderDistinct(cs: seq<Choice>)
    requires InOrder(cs)
    ensures DistinctChoices(cs)
  {
    forall i, j | 0 <= i < j < |cs| ensures cs[i] != cs[j] {
      assert Before(cs[i], cs[j]);
    }
  }

  /**
   Where each placement stands, and when it is congruent. Placements are pairwise distinct as
   generation and offset. In a generation anchored in the segment's direction beforehand, a placement
   is congruent to the segment's data sequence number exactly unless the segment is a bare SYN whose
   successor is not the anchor.
   */
  lemma {:induction false} PlacementsCongruent(s: TupleState, input: TcpInput, source: SourceIdentity, c: Config, o: Opaque, j: nat)
    requires StateOk(s, c) && Ingest(s, input, source, c, o).1.Ok?
    requires j < |Ingest(s, input, source, c, o).1.value.placements|
    ensures Derive(input, c, o).Ok? && Place(s, input, source, c, o).Ok?
    ensures var p := Derive(input, c, o).value;
            var (t, r) := Ingest(s, input, source, c, o);
            var cs := CandidatesFor(s, input, source, c, o);
            && |cs| == |r.value.placements| && DistinctChoices(cs) && cs[j].generation < |t.generations|
            && r.value.placements[j].generation == t.generations[cs[j].generation].id
            && r.value.placements[j].offset == cs[j].offset
    ensures var p := Derive(input, c, o).value;
            var x := CandidatesFor(s, input, source, c, o)[j];
            x.generation < |s.generations| && s.generations[x.generation].anchor.At(p.direction).Some? ==>
              var anchor := s.generations[x.generation].anchor.At(p.direction).value;
              Congruent(p.DataSequence(), anchor, x.offset) <==> !IsBareSyn(p) || anchor == Wrap32(p.sequence + 1)
  {
    hide Place, StateOk, EncodeKey, Grown, InOrder, OnlyAt, Derive, CandidatesFor;
    var selected := PlaceEffect(s, input, source, c, o);
    var cs := CandidatesFor(s, input, source, c, o);
    var (t, d) := Place(s, input, source, c, o).value;
    assert d.placements[j].generation == t.generations[cs[j].generation].id;
    InOrderDistinct(cs);
  }

  // ---------------------------------------------------------------- runs

  function After(s: TupleState, inputs: seq<TcpInput>, source: SourceIdentity, c: Config, o: Opaque, k: nat): TupleState
    requires k <= |inputs|
  {
    if k == 0 then s else Ingest(After(s, inputs, source, c, o, k - 1), inputs[k - 1], source, c, o).0
  }

  /** A tuple starts without generations. */
  lemma {:induction false} StartsOk(key: Key, c: Config)
    ensures StateOk(TupleState(key, []), c)
  {
  }

  /** Over any run, from any point j on, evidence is sticky and every state is sound. */
  lemma {:induction false} RunSafe(key: Key, inputs: seq<TcpInput>, source: SourceIdentity, c: Config, o: Opaque, j: nat, k: nat)
    requires j <= k <= |inputs|
    ensures var s := TupleState(key, []);
            && StateOk(After(s, inputs, source, c, o, k), c)
            && Grown(After(s, inputs, source, c, o, j), After(s, inputs, source, c, o, k))
    decreases k
  {
    hide StateOk, Grown, Ingest;
    var s := TupleState(key, []);
    if k == 0 {
      StartsOk(key, c);
      GrownReflexive(s);
    } else {
      RunSafe(key, inputs, source, c, o, Min(j, k - 1), k - 1);
      var before, after := After(s, inputs, source, c, o, k - 1), After(s, inputs, source, c, o, k);
      IngestSafe(before, inputs[k - 1], source, c, o);
      if j == k {
        GrownReflexive(after);
      } else {
        GrownTransitive(After(s, inputs, source, c, o, j), before, after);
      }
    }
  }
}
