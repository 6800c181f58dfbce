/** The candidates an observation is given are exactly the places it could have. */
module TupleCandidates {
  import opened Common
  import opened Boundaries
  import opened HistoryModel
  import opened HistoryInput
  import opened Epochs
  import opened TupleStates

  /** A generation whose bounds include its own starting point. */
  ghost predicate GenerationOk(g: Generation) {
    && g.birth != 0
    && g.low.forward <= 0 <= g.high.forward && g.low.reverse <= 0 <= g.high.reverse
  }

  ghost predicate AllOk(gs: seq<Generation>) {
    forall i | 0 <= i < |gs| :: GenerationOk(gs[i])
  }

  /** The offset is one the generation's own evidence allows. */
  ghost predicate Possible(g: Generation, p: Packet, c: Config, x: int) {
    !HandshakeExcludes(g, p) &&
    match g.anchor.At(p.direction)
    case Some(anchor) =>
      var h := Horizon(g, p.direction, c);
      h.Ok? && h.value.0 <= x <= h.value.1 && Congruent(p.DataSequence(), anchor, x)
    case None => !g.Closed() && x == 0
  }

  /** Whatever a sound generation holds, its range is never empty. */
  lemma {:induction false} HorizonOrdered(g: Generation, d: Direction, c: Config)
    requires GenerationOk(g) && c.Valid()
    ensures Horizon(g, d, c).Ok? ==> Horizon(g, d, c).value.0 <= 0 <= Horizon(g, d, c).value.1
  {
  }

  /** So the enumeration is never asked about an invalid range, and is exact. */
  lemma {:induction false} EpochsExact(g: Generation, p: Packet, c: Config, x: i64)
    requires GenerationOk(g) && c.Valid() && g.anchor.At(p.direction).Some?
    ensures var r := EpochsOf(g, p, c);
            && r != Err(EPOCH_RANGE)
            && (r.Ok? ==> Horizon(g, p.direction, c).Ok? && Ascending(r.value))
            && (r.Ok? ==> var h := Horizon(g, p.direction, c).value;
                          x in r.value <==> h.0 <= x <= h.1 && Congruent(p.DataSequence(), g.anchor.At(p.direction).value, x))
  {
    hide Congruent, EpochCandidates, GenerationOk;
    HorizonOrdered(g, p.direction, c);
    HorizonError(g, p.direction, c);
    if Horizon(g, p.direction, c).Ok? {
      var (low, high) := Horizon(g, p.direction, c).value;
      var sequence, anchor := p.DataSequence(), g.anchor.At(p.direction).value;
      EpochCandidatesExact(sequence, anchor, low, high, c.maxEpochCandidates);
      if EpochCandidates(sequence, anchor, low, high, c.maxEpochCandidates).Ok? {
        var r := EpochCandidates(sequence, anchor, low, high, c.maxEpochCandidates).value;
        assert x in r <==> x in Aliases(sequence, anchor, low, high);
      }
    }
  }

  lemma {:induction false} HorizonError(g: Generation, d: Direction, c: Config)
    ensures Horizon(g, d, c).Err? ==> Horizon(g, d, c).error == Limit("sequence_span")
  {
  }

  lemma {:induction false} ChoicesInExact(g: Generation, i: nat, p: Packet, c: Config, x: i64)
    requires GenerationOk(g) && c.Valid() && ChoicesIn(g, i, p, c).Ok?
    ensures Choice(i, x) in ChoicesIn(g, i, p, c).value <==> Possible(g, p, c, x)
  {
    hide EpochsOf, ChoicesAt, HandshakeExcludes, GenerationOk, Horizon, Congruent;
    if !HandshakeExcludes(g, p) && g.anchor.At(p.direction).Some? {
      var offsets := EpochsOf(g, p, c).value;
      EpochsExact(g, p, c, x);
      ChoicesAtMembers(i, offsets, x);
    }
  }

  lemma {:induction false} ChoicesAtMembers(i: nat, offsets: seq<i64>, x: i64)
    ensures Choice(i, x) in ChoicesAt(i, offsets) <==> x in offsets
  {
    hide ChoicesAt;
    ChoicesAtSize(i, offsets);
    var cs := ChoicesAt(i, offsets);
    if Choice(i, x) in cs {
      var j :| 0 <= j < |cs| && cs[j] == Choice(i, x);
      ChoicesAtIndex(i, offsets, j);
    }
    if x in offsets {
      var j :| 0 <= j < |offsets| && offsets[j] == x;
      ChoicesAtIndex(i, offsets, j);
    }
  }

  lemma {:induction false} ChoicesToExact(gs: seq<Generation>, p: Packet, c: Config, k: nat, i: nat, x: i64)
    requires k <= |gs| && AllOk(gs) && c.Valid() && ChoicesTo(gs, p, c, k).Ok?
    ensures Choice(i, x) in ChoicesTo(gs, p, c, k).value <==> i < k && Possible(gs[i], p, c, x)
  {
    hide ChoicesIn, Possible, GenerationOk;
    if k > 0 {
      ChoicesToExact(gs, p, c, k - 1, i, x);
      ChoicesInGeneration(gs[k - 1], k - 1, p, c);
      ChoicesInExact(gs[k - 1], k - 1, p, c, x);
    }
  }

  /** Candidates in order of generation, and of offset within a generation. */
  ghost predicate Before(x: Choice, y: Choice) {
    x.generation < y.generation || (x.generation == y.generation && x.offset < y.offset)
  }

  ghost predicate InOrder(cs: seq<Choice>) {
    forall i, j | 0 <= i < j < |cs| :: Before(cs[i], cs[j])
  }

  lemma {:induction false} InOrderAppend(a: seq<Choice>, b: seq<Choice>, k: nat)
    requires InOrder(a) && InOrder(b)
    requires (forall i | 0 <= i < |a| :: a[i].generation < k) && (forall i | 0 <= i < |b| :: b[i].generation == k)
    ensures InOrder(a + b)
  {
    var s := a + b;
    forall i, j | 0 <= i < j < |s| ensures Before(s[i], s[j]) {
      if i >= |a| {
        assert s[i] == b[i - |a|] && s[j] == b[j - |a|];
      } else if j < |a| {
        assert s[i] == a[i] && s[j] == a[j];
      }
    }
  }

  lemma {:induction false} ChoicesInOrder(g: Generation, i: nat, p: Packet, c: Config)
    requires GenerationOk(g) && c.Valid() && ChoicesIn(g, i, p, c).Ok?
    ensures InOrder(ChoicesIn(g, i, p, c).value)
  {
    hide EpochsOf, ChoicesAt, HandshakeExcludes, GenerationOk, Horizon, Congruent;
    if !HandshakeExcludes(g, p) && g.anchor.At(p.direction).Some? {
      var offsets := EpochsOf(g, p, c).value;
      EpochsExact(g, p, c, 0);
      ChoicesAtSize(i, offsets);
      forall m, n | 0 <= m < n < |offsets| ensures Before(ChoicesAt(i, offsets)[m], ChoicesAt(i, offsets)[n]) {
        ChoicesAtIndex(i, offsets, m);
        ChoicesAtIndex(i, offsets, n);
      }
    }
  }

  lemma {:induction false} ChoicesToOrder(gs: seq<Generation>, p: Packet, c: Config, k: nat)
    requires k <= |gs| && AllOk(gs) && c.Valid() && ChoicesTo(gs, p, c, k).Ok?
    ensures InOrder(ChoicesTo(gs, p, c, k).value)
  {
    hide ChoicesIn, GenerationOk, InOrder;
    if k == 0 {
      NoneInOrder();
    } else {
      ChoicesToOrder(gs, p, c, k - 1);
      ChoicesInOrder(gs[k - 1], k - 1, p, c);
      ChoicesBelow(gs, p, c, k - 1);
      ChoicesInGeneration(gs[k - 1], k - 1, p, c);
      InOrderAppend(ChoicesTo(gs, p, c, k - 1).value, ChoicesIn(gs[k - 1], k - 1, p, c).value, k - 1);
    }
  }

  lemma {:induction false} NoneInOrder()
    ensures InOrder([])
  {
  }

  lemma {:induction false} RepeatedInOrder(gs: seq<Generation>, p: Packet, k: nat)
    requires k <= |gs|
    ensures InOrder(RepeatedSyns(gs, p, k))
  {
    hide Repeats, InOrder;
    if k == 0 {
      NoneInOrder();
    } else {
      RepeatedInOrder(gs, p, k - 1);
      RepeatedBelow(gs, p, k - 1);
      OneInOrder(if Repeats(gs[k - 1], p) then [Choice(k - 1, 0)] else []);
      InOrderAppend(RepeatedSyns(gs, p, k - 1), if Repeats(gs[k - 1], p) then [Choice(k - 1, 0)] else [], k - 1);
    }
  }

  lemma {:induction false} OneInOrder(cs: seq<Choice>)
    requires |cs| <= 1
    ensures InOrder(cs)
  {
  }

  /** What may be placed where: the generation's SYN evidence and anchor are respected. */
  ghost predicate Respects(g: Generation, p: Packet, x: int) {
    && (p.syn && g.syn.At(p.direction).Some? ==> g.syn.At(p.direction).value == p.sequence)
    && (!(p.syn && !p.ack) && g.anchor.At(p.direction).Some? ==> Congruent(p.DataSequence(), g.anchor.At(p.direction).value, x))
    && (!(p.syn && !p.ack) && g.anchor.At(p.direction).None? ==> x == 0)
    && (p.syn && !p.ack ==> x == 0)
  }

  ghost predicate AllRespect(q: Gathered, p: Packet) {
    forall j | 0 <= j < |q.candidates| ::
      q.candidates[j].generation < |q.generations|
      && Respects(q.generations[q.candidates[j].generation], p, q.candidates[j].offset)
  }

  lemma {:induction false} PossibleRespects(g: Generation, p: Packet, c: Config, x: int)
    requires !(p.syn && !p.ack) && Possible(g, p, c, x)
    ensures Respects(g, p, x)
  {
    hide Congruent, Horizon;
  }

  /** A generation that an observation begins. */
  ghost predicate Newborn(g: Generation, p: Packet) {
    && g.birth == p.frame && g.syn == Both(None, None) && g.anchor == Both(None, None) && g.fin == Both(None, None)
    && g.low == Both(0, 0) && g.high == Both(0, 0) && !g.reset && g.midstream == (!p.syn || p.ack) && g.lastTime == None
  }

  lemma {:induction false} BeginShape(s: TupleState, p: Packet, source: SourceIdentity, c: Config, o: Opaque, reason: Reason)
    requires Begin(s, p, source, c, o, reason).Ok?
    ensures var q := Begin(s, p, source, c, o, reason).value;
            && |s.generations| < c.maxGenerations && |q.generations| == |s.generations| + 1
            && q.generations[..|s.generations|] == s.generations && Newborn(q.generations[|s.generations|], p)
            && q.candidates == [Choice(|s.generations|, 0)]
  {
    hide EncodeKey, GenerationSeed;
  }

  /** How the generations may differ before anything is placed. */
  ghost predicate Extended(s: TupleState, q: Gathered, p: Packet, c: Config) {
    || q.generations == s.generations
    || (&& |s.generations| < c.maxGenerations && |q.generations| == |s.generations| + 1
        && q.generations[..|s.generations|] == s.generations && Newborn(q.generations[|s.generations|], p)
        && q.candidates == [Choice(|s.generations|, 0)])
  }

  lemma {:induction false} GatherSound(s: TupleState, p: Packet, source: SourceIdentity, c: Config, o: Opaque)
    requires AllOk(s.generations) && c.Valid() && Gather(s, p, source, c, o).Ok?
    ensures var q := Gather(s, p, source, c, o).value;
            Extended(s, q, p, c) && InOrder(q.candidates) && AllRespect(q, p)
  {
    hide ChoicesTo, RepeatedSyns, Begin, InOrder, GenerationOk, Respects, Repeats, OpensSimultaneously, Newborn;
    var gs := s.generations;
    if p.syn && !p.ack {
      RepeatedInOrder(gs, p, |gs|);
      RepeatedBelow(gs, p, |gs|);
      if RepeatedSyns(gs, p, |gs|) != [] {
        RepeatedRespect(gs, p);
      } else if OpensSimultaneously(gs, p) {
        SimultaneousRespects(gs, p);
        OneInOrder([Choice(|gs| - 1, 0)]);
      } else {
        BeginSound(s, p, source, c, o, SynBoundary);
      }
    } else if gs == [] {
      BeginSound(s, p, source, c, o, MissingInitialSyn);
    } else if ChoicesTo(gs, p, c, |gs|).value == [] && p.syn {
      BeginSound(s, p, source, c, o, SynAckUnobserved);
    } else {
      ChoicesToOrder(gs, p, c, |gs|);
      FoundRespect(gs, p, c);
    }
  }

  lemma {:induction false} BeginSound(s: TupleState, p: Packet, source: SourceIdentity, c: Config, o: Opaque, reason: Reason)
    requires Begin(s, p, source, c, o, reason).Ok?
    ensures var q := Begin(s, p, source, c, o, reason).value;
            Extended(s, q, p, c) && InOrder(q.candidates) && AllRespect(q, p)
  {
    hide Begin, InOrder;
    BeginShape(s, p, source, c, o, reason);
    OneInOrder([Choice(|s.generations|, 0)]);
  }

  lemma {:induction false} RepeatedRespect(gs: seq<Generation>, p: Packet)
    requires p.syn && !p.ack
    ensures AllRespect(Gathered(gs, RepeatedSyns(gs, p, |gs|), [RepeatedSyn]), p)
  {
    hide RepeatedSyns;
    RepeatedBelow(gs, p, |gs|);
  }

  lemma {:induction false} SimultaneousRespects(gs: seq<Generation>, p: Packet)
    requires p.syn && !p.ack && OpensSimultaneously(gs, p)
    ensures gs != [] && AllRespect(Gathered(gs, [Choice(|gs| - 1, 0)], [SimultaneousOpen]), p)
  {
  }

  lemma {:induction false} FoundRespect(gs: seq<Generation>, p: Packet, c: Config)
    requires !(p.syn && !p.ack) && AllOk(gs) && c.Valid() && ChoicesTo(gs, p, c, |gs|).Ok?
    ensures AllRespect(Gathered(gs, ChoicesTo(gs, p, c, |gs|).value, []), p)
  {
    hide ChoicesTo, Respects, Possible, GenerationOk;
    var cs := ChoicesTo(gs, p, c, |gs|).value;
    forall j | 0 <= j < |cs| ensures cs[j].generation < |gs| && Respects(gs[cs[j].generation], p, cs[j].offset) {
      ChoicesToExact(gs, p, c, |gs|, cs[j].generation, cs[j].offset);
      PossibleRespects(gs[cs[j].generation], p, c, cs[j].offset);
    }
  }

  /**
   For any observation but a bare SYN, in a tuple that has generations, the candidates are exactly
   the possible places unless a SYN-ACK finds none and begins a generation of its own.
   */
  lemma {:induction false} CandidatesExact(s: TupleState, p: Packet, source: SourceIdentity, c: Config, o: Opaque, i: nat, x: i64)
    requires AllOk(s.generations) && c.Valid() && Gather(s, p, source, c, o).Ok?
    requires s.generations != [] && !(p.syn && !p.ack)
    ensures var q := Gather(s, p, source, c, o).value;
            if q.generations == s.generations
            then Choice(i, x) in q.candidates <==> i < |s.generations| && Possible(s.generations[i], p, c, x)
            else p.syn && !(i < |s.generations| && Possible(s.generations[i], p, c, x))
  {
    hide ChoicesTo, Begin, GenerationOk, Possible;
    var gs := s.generations;
    ChoicesToExact(gs, p, c, |gs|, i, x);
    if ChoicesTo(gs, p, c, |gs|).value == [] && p.syn {
      BeginShape(s, p, source, c, o, SynAckUnobserved);
    }
  }
}
