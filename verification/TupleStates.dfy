/**
 The generations of one tuple. An observation is placed in every generation and sequence epoch it
 could belong to; only an unambiguous placement, or one the declared policy singles out, changes a
 generation.
 */
module TupleStates {
  import opened Common
  import opened Codec
  import opened HistoryModel
  import opened HistoryInput
  import opened Epochs

  datatype Generation = Generation(
    id: Digest,
    birth: u64,
    syn: Both<Option<u32>>,
    anchor: Both<Option<u32>>,
    low: Both<i64>,
    high: Both<i64>,
    fin: Both<Option<i64>>,
    reset: bool,
    midstream: bool,
    lastTime: Option<i128>)
  {
    predicate Closed() {
      reset || (fin.forward.Some? && fin.reverse.Some?)
    }
  }

  datatype TupleState = TupleState(key: Key, generations: seq<Generation>)

  /** A generation and an offset in it that an observation could have. */
  datatype Choice = Choice(generation: nat, offset: i64)

  datatype Placement = Placement(generation: Digest, direction: Direction, offset: i64, selected: bool)

  datatype Reason =
    | RepeatedSyn
    | SimultaneousOpen
    | SynBoundary
    | MissingInitialSyn
    | SynAckUnobserved
    | NearestFrontierAssumed
    | MultipleCandidates
    | OutsideHypotheses
    | ZeroWindow
    | LateAfterClose
    | ClockReversal
    | TimestampUnavailable
    | PayloadBeyondFin
    | ConflictingFin

  datatype Decision = Decision(
    before: Digest,
    after: Digest,
    placements: seq<Placement>,
    reasons: seq<Reason>,
    policyAssumption: bool)

  datatype SourceIdentity = SourceIdentity(sha256: Digest, bytes: u64)

  // ---------------------------------------------------------------- creation

  function TextBytes(s: string): seq<byte> {
    seq(|s|, i requires 0 <= i < |s| => (s[i] as int) % 256)
  }

  /** What the identity of the generation with this index hashes: source, tuple, frame and index. */
  function GenerationSeed(source: SourceIdentity, key: seq<byte>, frame: u64, index: nat): seq<byte> {
    PutBytes(TextBytes("pcap-evidence/history-generation/v1"), PutRaw(source.sha256,
      PutBytes(key, PutNumber(frame, 8, PutNumber(index, 8, [])))))
  }

  function Create(s: TupleState, p: Packet, source: SourceIdentity, c: Config, o: Opaque): Result<Generation> {
    if |s.generations| >= c.maxGenerations then Err(Limit("generations_per_tuple"))
    else
      var key :- EncodeKey(s.key, o);
      Ok(Generation(
        o.sha256(GenerationSeed(source, key, p.frame, |s.generations|)), p.frame, Both(None, None), Both(None, None), Both(0, 0), Both(0, 0),
        Both(None, None), false, !p.syn || p.ack, None))
  }

  // ---------------------------------------------------------------- candidates

  predicate Repeats(g: Generation, p: Packet) {
    !g.Closed() && g.syn.At(p.direction) == Some(p.sequence)
  }

  /** The open generations among the first k that already began with this SYN. */
  function RepeatedSyns(gs: seq<Generation>, p: Packet, k: nat): seq<Choice>
    requires k <= |gs|
  {
    if k == 0 then []
    else RepeatedSyns(gs, p, k - 1) + (if Repeats(gs[k - 1], p) then [Choice(k - 1, 0)] else [])
  }

  predicate OpensSimultaneously(gs: seq<Generation>, p: Packet) {
    gs != [] &&
    var g := gs[|gs| - 1];
    && !g.Closed() && !g.midstream && g.syn.At(p.direction).None? && g.syn.At(p.direction.Other()).Some?
    && g.high == Both(0, 0)
  }

  /** A SYN-ACK cannot belong to a generation that is closed or has other handshake evidence. */
  predicate HandshakeExcludes(g: Generation, p: Packet) {
    p.syn &&
    (|| g.Closed() || (g.syn.At(p.direction).Some? && g.syn.At(p.direction).value != p.sequence)
     || (g.syn.At(p.direction.Other()).Some? &&
         (!p.ack || p.acknowledgement != Wrap32(g.syn.At(p.direction.Other()).value + 1))))
  }

  /** The lowest and highest offset an anchored generation still considers. */
  function Horizon(g: Generation, d: Direction, c: Config): Result<(i64, i64)> {
    var high := g.high.At(d) + if g.Closed() then 0 else c.sequenceHorizon;
    var low := if g.syn.At(d).Some? then 0 else g.low.At(d) - c.sequenceHorizon;
    if high > I64_MAX || low < I64_MIN || low > I64_MAX || high < I64_MIN then Err(Limit("sequence_span")) else Ok((low, high))
  }

  function EpochsOf(g: Generation, p: Packet, c: Config): Result<seq<i64>>
    requires g.anchor.At(p.direction).Some?
  {
    var (low, high) :- Horizon(g, p.direction, c);
    EpochCandidates(p.DataSequence(), g.anchor.At(p.direction).value, low, high, c.maxEpochCandidates)
  }

  function ChoicesAt(i: nat, offsets: seq<i64>): seq<Choice> {
    if offsets == [] then []
    else ChoicesAt(i, offsets[..|offsets| - 1]) + [Choice(i, offsets[|offsets| - 1])]
  }

  function ChoicesIn(g: Generation, i: nat, p: Packet, c: Config): Result<seq<Choice>> {
    if HandshakeExcludes(g, p) then Ok([])
    else if g.anchor.At(p.direction).Some? then
      var offsets :- EpochsOf(g, p, c);
      Ok(ChoicesAt(i, offsets))
    else if !g.Closed() then Ok([Choice(i, 0)])
    else Ok([])
  }

  function ChoicesTo(gs: seq<Generation>, p: Packet, c: Config, k: nat): Result<seq<Choice>>
    requires k <= |gs|
  {
    if k == 0 then Ok([])
    else
      var before :- ChoicesTo(gs, p, c, k - 1);
      var here :- ChoicesIn(gs[k - 1], k - 1, p, c);
      Ok(before + here)
  }

  /** The generations, perhaps with a new one, and the candidates among them. */
  datatype Gathered = Gathered(generations: seq<Generation>, candidates: seq<Choice>, reasons: seq<Reason>)

  function Begin(s: TupleState, p: Packet, source: SourceIdentity, c: Config, o: Opaque, reason: Reason): Result<Gathered> {
    var g :- Create(s, p, source, c, o);
    Ok(Gathered(s.generations + [g], [Choice(|s.generations|, 0)], [reason]))
  }

  function Gather(s: TupleState, p: Packet, source: SourceIdentity, c: Config, o: Opaque): Result<Gathered> {
    var gs := s.generations;
    if p.syn && !p.ack then
      var repeats := RepeatedSyns(gs, p, |gs|);
      if repeats != [] then Ok(Gathered(gs, repeats, [RepeatedSyn]))
      else if OpensSimultaneously(gs, p) then Ok(Gathered(gs, [Choice(|gs| - 1, 0)], [SimultaneousOpen]))
      else Begin(s, p, source, c, o, SynBoundary)
    else if gs == [] then Begin(s, p, source, c, o, MissingInitialSyn)
    else
      var found :- ChoicesTo(gs, p, c, |gs|);
      if found == [] && p.syn then Begin(s, p, source, c, o, SynAckUnobserved)
      else Ok(Gathered(gs, found, []))
  }

  // ---------------------------------------------------------------- selection

  function Distance(x: int, y: int): nat {
    Abs(x - y)
  }

  /** The first of the first k candidates that is nearest to the frontier. */
  function NearestTo(cs: seq<Choice>, frontier: int, k: nat): (j: nat)
    requires 0 < k <= |cs|
    ensures j < k
  {
    if k == 1 then 0
    else
      var j := NearestTo(cs, frontier, k - 1);
      if Distance(cs[k - 1].offset, frontier) < Distance(cs[j].offset, frontier) then k - 1 else j
  }

  predicate OneGeneration(cs: seq<Choice>) {
    forall i | 0 <= i < |cs| :: cs[i].generation == cs[0].generation
  }

  predicate StrictlyNearest(cs: seq<Choice>, frontier: int, j: nat)
    requires j < |cs|
  {
    forall i | 0 <= i < |cs| && i != j :: Distance(cs[j].offset, frontier) < Distance(cs[i].offset, frontier)
  }

  predicate ValidChoices(cs: seq<Choice>, gs: seq<Generation>) {
    forall i | 0 <= i < |cs| :: cs[i].generation < |gs|
  }

  /** The candidate to act on, if any, and whether that took the nearest-frontier assumption. */
  function Select(gs: seq<Generation>, cs: seq<Choice>, d: Direction, policy: EpochPolicy): (Option<nat>, bool)
    requires ValidChoices(cs, gs)
  {
    if |cs| == 1 then (Some(0), false)
    else if |cs| > 1 && policy == NearestFrontier && OneGeneration(cs) then
      var frontier := gs[cs[0].generation].high.At(d);
      var j := NearestTo(cs, frontier, |cs|);
      if StrictlyNearest(cs, frontier, j) then (Some(j), true) else (None, false)
    else (None, false)
  }

  // ---------------------------------------------------------------- effect

  function Later(time: Option<i128>, now: Option<i128>): Option<i128> {
    match now
    case None => time
    case Some(t) => if time.None? then Some(t) else Some(Max(time.value, t))
  }

  /** The generation once the observation stands at this offset. */
  function Extend(g: Generation, p: Packet, at: i64): Result<Generation> {
    var d := p.direction;
    var end := at + p.payload;
    if end > I64_MAX then Err(Limit("sequence_span"))
    else Ok(g.(
      lastTime := Later(g.lastTime, p.when),
      syn := if p.syn then g.syn.With(d, Some(p.sequence)) else g.syn,
      anchor := if g.anchor.At(d).None? then g.anchor.With(d, Some(p.DataSequence())) else g.anchor,
      low := g.low.With(d, Min(g.low.At(d), at)),
      high := g.high.With(d, Max(g.high.At(d), end)),
      fin := if p.fin && g.fin.At(d).None? then g.fin.With(d, Some(end)) else g.fin,
      reset := g.reset || p.rst))
  }

  function Note(condition: bool, reason: Reason): seq<Reason> {
    if condition then [reason] else []
  }

  function ExtendReasons(g: Generation, p: Packet, at: i64): seq<Reason> {
    var d := p.direction;
    var end := at + p.payload;
    Note(g.Closed(), LateAfterClose)
    + Note(p.when.Some? && g.lastTime.Some? && p.when.value < g.lastTime.value, ClockReversal)
    + Note(p.when.None?, TimestampUnavailable)
    + Note(g.fin.At(d).Some? && end > g.fin.At(d).value && p.payload > 0, PayloadBeyondFin)
    + Note(p.fin && g.fin.At(d).Some? && g.fin.At(d).value != end, ConflictingFin)
  }

  function PlacementsOf(gs: seq<Generation>, cs: seq<Choice>, d: Direction, selected: Option<nat>): (r: seq<Placement>)
    requires ValidChoices(cs, gs)
    ensures |r| == |cs|
    ensures forall j | 0 <= j < |cs| :: r[j] == Placement(gs[cs[j].generation].id, d, cs[j].offset, selected == Some(j))
  {
    seq(|cs|, j requires 0 <= j < |cs| => Placement(gs[cs[j].generation].id, d, cs[j].offset, selected == Some(j)))
  }

  // ---------------------------------------------------------------- codec

  function PutI64(v: i64, rest: seq<byte>): seq<byte> {
    Powers();
    PutSigned(v, 8, rest)
  }

  function ReadI64(b: seq<byte>): Read<i64> {
    var (v, rest) :- ReadSigned(b, 8);
    FromSignedBound(b, 8);
    Powers();
    Ok((v, rest))
  }

  function PutFin(v: Option<i64>, rest: seq<byte>): seq<byte> {
    match v
    case None => PutFlag(false, rest)
    case Some(x) => PutFlag(true, PutI64(x, rest))
  }

  function ReadFin(b: seq<byte>): Read<Option<i64>> {
    var (some, rest) :- ReadFlag(b);
    if some then
      var (v, after) :- ReadI64(rest);
      Ok((Some(v), after))
    else Ok((None, rest))
  }

  function PutGeneration(g: Generation, rest: seq<byte>): seq<byte> {
    PutRaw(g.id, PutNumber(g.birth, 8, PutLink(g.syn.forward, PutLink(g.syn.reverse,
      PutLink(g.anchor.forward, PutLink(g.anchor.reverse, PutI64(g.low.forward, PutI64(g.low.reverse,
      PutI64(g.high.forward, PutI64(g.high.reverse, PutFin(g.fin.forward, PutFin(g.fin.reverse,
      PutFlag(g.reset, PutFlag(g.midstream, PutTime(g.lastTime, rest)))))))))))))))
  }

  function ReadGeneration(b: seq<byte>): Read<Generation> {
    var (id, b1) :- Take(b, 32);
    var (birth, b2) :- ReadU64(b1);
    var (syn0, b3) :- ReadOptionU32(b2);
    var (syn1, b4) :- ReadOptionU32(b3);
    var (anchor0, b5) :- ReadOptionU32(b4);
    var (anchor1, b6) :- ReadOptionU32(b5);
    var (low0, b7) :- ReadI64(b6);
    var (low1, b8) :- ReadI64(b7);
    var (high0, b9) :- ReadI64(b8);
    var (high1, b10) :- ReadI64(b9);
    var (fin0, b11) :- ReadFin(b10);
    var (fin1, b12) :- ReadFin(b11);
    var (reset, b13) :- ReadFlag(b12);
    var (midstream, b14) :- ReadFlag(b13);
    var (lastTime, b15) :- ReadTime(b14);
    Ok((Generation(id, birth, Both(syn0, syn1), Both(anchor0, anchor1), Both(low0, low1), Both(high0, high1),
                   Both(fin0, fin1), reset, midstream, lastTime), b15))
  }

  function PutGenerations(v: seq<Generation>, rest: seq<byte>): seq<byte> {
    if v == [] then rest else PutGeneration(v[0], PutGenerations(v[1..], rest))
  }

  function ReadGenerations(b: seq<byte>, n: nat): Read<seq<Generation>>
    decreases n
  {
    hide ReadGeneration;
    if n == 0 then Ok(([], b))
    else
      var (v, b1) :- ReadGeneration(b);
      var (vs, b2) :- ReadGenerations(b1, n - 1);
      Ok(([v] + vs, b2))
  }

  function EncodeState(s: TupleState, o: Opaque): Result<seq<byte>> {
    var key :- EncodeKey(s.key, o);
    if |s.generations| >= MODULUS then Err(Limit("generations"))
    else Ok(PutBytes(key, PutNumber(|s.generations|, 4, PutGenerations(s.generations, []))))
  }

  predicate Bounds(g: Generation) {
    g.birth != 0 && g.low.forward <= g.high.forward && g.low.reverse <= g.high.reverse
  }

  function DecodeState(b: seq<byte>, c: Config, o: Opaque): Result<TupleState> {
    var (blob, b1) :- ReadBytes(b, 10000);
    var key :- DecodeKey(blob, o);
    var (n, b2) :- ReadU32(b1);
    if n > c.maxGenerations then Err(Limit("generations"))
    else
      var (gs, b3) :- ReadGenerations(b2, n);
      var done :- Finish(gs, b3);
      if exists i | 0 <= i < |gs| :: !Bounds(gs[i]) then Err(Bad("history_state"))
      else Ok(TupleState(key, gs))
  }

  // ---------------------------------------------------------------- one observation

  /** Act on the gathered candidates. */
  function Decide(s: TupleState, q: Gathered, p: Packet, c: Config, before: Digest, o: Opaque): Result<(TupleState, Decision)>
    requires ValidChoices(q.candidates, q.generations)
  {
    var cs := q.candidates;
    var (selected, assumption) := Select(q.generations, cs, p.direction, c.epochPolicy);
    var reasons := q.reasons + Note(assumption, NearestFrontierAssumed) + Note(|cs| > 1, MultipleCandidates)
      + Note(cs == [], OutsideHypotheses) + Note(p.window == 0, ZeroWindow);
    if selected.None? then
      var t := TupleState(s.key, q.generations);
      var after :- EncodeState(t, o);
      Ok((t, Decision(before, o.sha256(after), PlacementsOf(t.generations, cs, p.direction, None), reasons, assumption)))
    else
      SelectedIndex(q.generations, cs, p.direction, c.epochPolicy);
      var choice := cs[selected.value];
      var old_ := q.generations[choice.generation];
      var g :- Extend(old_, p, choice.offset);
      var t := TupleState(s.key, q.generations[choice.generation := g]);
      var after :- EncodeState(t, o);
      Ok((t, Decision(before, o.sha256(after), PlacementsOf(t.generations, cs, p.direction, selected),
                      reasons + ExtendReasons(old_, p, choice.offset), assumption)))
  }

  lemma {:induction false} SelectedIndex(gs: seq<Generation>, cs: seq<Choice>, d: Direction, policy: EpochPolicy)
    requires ValidChoices(cs, gs)
    ensures Select(gs, cs, d, policy).0.Some? ==> Select(gs, cs, d, policy).0.value < |cs|
  {
  }

  function Place(s: TupleState, input: TcpInput, source: SourceIdentity, c: Config, o: Opaque): Result<(TupleState, Decision)> {
    var p :- Derive(input, c, o);
    if p.key != s.key then Err(Bad("history_key"))
    else
      var bytes :- EncodeState(s, o);
      var q :- Gather(s, p, source, c, o);
      GatherValid(s, p, source, c, o);
      Decide(s, q, p, c, o.sha256(bytes), o)
  }

  /** Work on a copy; only success replaces the state. */
  function Ingest(s: TupleState, input: TcpInput, source: SourceIdentity, c: Config, o: Opaque): (TupleState, Result<Decision>) {
    if !c.Valid() then (s, Err(CONFIG_ERROR))
    else if |input.raw| > 65535 || |input.witnesses| > c.maxWitnesses || |s.generations| > c.maxGenerations then
      (s, Err(Limit("history_state_input")))
    else if EncodeKey(s.key, o).Err? then (s, Err(EncodeKey(s.key, o).error))
    else
      match Place(s, input, source, c, o)
      case Err(e) => (s, Err(e))
      case Ok(r) => (r.0, Ok(r.1))
  }

  // ---------------------------------------------------------------- where candidates point

  lemma {:induction false} ChoicesAtIndex(i: nat, offsets: seq<i64>, j: int)
    requires 0 <= j < |offsets|
    ensures |ChoicesAt(i, offsets)| == |offsets|
    ensures ChoicesAt(i, offsets)[j] == Choice(i, offsets[j])
  {
    if j < |offsets| - 1 {
      ChoicesAtIndex(i, offsets[..|offsets| - 1], j);
    } else if |offsets| > 1 {
      ChoicesAtIndex(i, offsets[..|offsets| - 1], 0);
    }
  }

  lemma {:induction false} ChoicesInGeneration(g: Generation, i: nat, p: Packet, c: Config)
    requires ChoicesIn(g, i, p, c).Ok?
    ensures forall j | 0 <= j < |ChoicesIn(g, i, p, c).value| :: ChoicesIn(g, i, p, c).value[j].generation == i
  {
    hide EpochsOf, ChoicesAt;
    if !HandshakeExcludes(g, p) && g.anchor.At(p.direction).Some? {
      var offsets := EpochsOf(g, p, c).value;
      ChoicesAtSize(i, offsets);
      forall j | 0 <= j < |offsets| ensures ChoicesAt(i, offsets)[j].generation == i {
        ChoicesAtIndex(i, offsets, j);
      }
    }
  }

  lemma {:induction false} ChoicesAtSize(i: nat, offsets: seq<i64>)
    ensures |ChoicesAt(i, offsets)| == |offsets|
  {
    if offsets != [] {
      ChoicesAtIndex(i, offsets, 0);
    }
  }

  lemma {:induction false} ChoicesBelow(gs: seq<Generation>, p: Packet, c: Config, k: nat)
    requires k <= |gs| && ChoicesTo(gs, p, c, k).Ok?
    ensures forall j | 0 <= j < |ChoicesTo(gs, p, c, k).value| :: ChoicesTo(gs, p, c, k).value[j].generation < k
  {
    hide ChoicesIn;
    if k > 0 {
      ChoicesBelow(gs, p, c, k - 1);
      ChoicesInGeneration(gs[k - 1], k - 1, p, c);
    }
  }

  lemma {:induction false} RepeatedBelow(gs: seq<Generation>, p: Packet, k: nat)
    requires k <= |gs|
    ensures forall j | 0 <= j < |RepeatedSyns(gs, p, k)| ::
              RepeatedSyns(gs, p, k)[j].generation < k && Repeats(gs[RepeatedSyns(gs, p, k)[j].generation], p)
              && RepeatedSyns(gs, p, k)[j].offset == 0
  {
    if k > 0 {
      RepeatedBelow(gs, p, k - 1);
    }
  }

  lemma {:induction false} GatherValid(s: TupleState, p: Packet, source: SourceIdentity, c: Config, o: Opaque)
    ensures var q := Gather(s, p, source, c, o);
            q.Ok? ==> ValidChoices(q.value.candidates, q.value.generations)
  {
    hide ChoicesTo, RepeatedSyns, Create, Repeats;
    var gs := s.generations;
    RepeatedBelow(gs, p, |gs|);
    if ChoicesTo(gs, p, c, |gs|).Ok? {
      ChoicesBelow(gs, p, c, |gs|);
    }
  }
}
