/**
 Connection generations: which generation of a flow owns a segment, or that none safely does.
 Every step is a function of the tracker and the segment; the safety lemmas range over whole runs.
 */
module TcpTracking {
  import opened Common
  import opened Provenance
  import opened StreamAssembly

  /** Addresses are numbered in their total order. */
  datatype Endpoint = Endpoint(address: nat, port: u16)

  predicate EndpointLe(x: Endpoint, y: Endpoint) {
    x.address < y.address || (x.address == y.address && x.port <= y.port)
  }

  datatype FlowKey = FlowKey(scope: Scope, a: Endpoint, b: Endpoint)

  function KeyOf(scope: Scope, source: Endpoint, destination: Endpoint): (FlowKey, Direction) {
    if EndpointLe(source, destination) then (FlowKey(scope, source, destination), Forward)
    else (FlowKey(scope, destination, source), Reverse)
  }

  /** Both directions of a conversation share one key, and the direction tells them apart. */
  lemma {:induction false} KeySymmetric(scope: Scope, x: Endpoint, y: Endpoint)
    ensures KeyOf(scope, x, y).0 == KeyOf(scope, y, x).0
    ensures x != y ==> KeyOf(scope, x, y).1 == KeyOf(scope, y, x).1.Other()
  {
  }

  datatype Segment = Segment(
    source: Endpoint,
    destination: Endpoint,
    sequence: u32,
    acknowledgement: u32,
    syn: bool,
    ack: bool,
    fin: bool,
    rst: bool,
    payload: Evidence)
  {
    function DataSequence(): u32 {
      Wrap32(sequence + if syn then 1 else 0)
    }

    /** An acknowledgement that carries nothing else. */
    predicate Bare() {
      !syn && !fin && !rst && ack && payload.data == []
    }
  }

  datatype Input = Input(direction: Direction, segment: Segment)

  datatype Anomaly = ClockReversal | TimeUnavailable

  datatype Flow = Flow(
    id: nat,
    generation: nat,
    key: FlowKey,
    syn: Both<Option<u32>>,
    anchors: Both<Option<u32>>,
    fin: Both<bool>,
    finNext: Both<Option<u32>>,
    closed: bool,
    rstSeen: bool,
    hasPayload: bool,
    midstream: bool,
    firstNs: Option<i128>,
    lastNs: Option<i128>,
    packets: set<PacketId>,
    inputs: seq<Input>,
    anomalies: set<Anomaly>)

  datatype Tracker = Tracker(keys: map<FlowKey, seq<nat>>, flows: seq<Flow>, retained: nat)

  datatype Reason = ClosedRequiresSyn | OutsideKnownGenerations | ConflictingSyn

  datatype Assignment =
    | Assigned(flow: nat, direction: Direction)
    | Ambiguous(candidates: set<nat>)
    | Unassigned(reason: Reason)

  /** A segment as it reaches the tracker, with the budgets in force. */
  datatype Query = Query(
    key: FlowKey,
    direction: Direction,
    when: Option<i128>,
    segment: Segment,
    span: nat,
    idle: i128)

  const NO_TRACKER: Tracker := Tracker(map[], [], 0)

  function History(t: Tracker, key: FlowKey): seq<nat> {
    if key in t.keys then t.keys[key] else []
  }

  predicate Expired(f: Flow, q: Query) {
    q.when.Some? && f.lastNs.Some? && SaturateI128(q.when.value - f.lastNs.value) > q.idle
  }

  predicate Near(sequence: u32, anchor: u32, span: nat) {
    SequenceDelta(sequence, anchor).Ok? && Abs(SequenceDelta(sequence, anchor).value) <= span
  }

  predicate Plausible(f: Flow, q: Query) {
    if f.anchors.At(q.direction).Some? then
      Near(q.segment.DataSequence(), f.anchors.At(q.direction).value, q.span)
    else if q.segment.ack && f.anchors.At(q.direction.Other()).Some? then
      Near(q.segment.acknowledgement, f.anchors.At(q.direction.Other()).value, q.span)
    else true
  }

  /** The bare acknowledgement that completes a two-sided close. */
  predicate IsFinalAck(f: Flow, q: Query) {
    && !f.rstSeen && f.fin.forward && f.fin.reverse && q.segment.Bare()
    && f.finNext.At(q.direction) == Some(q.segment.DataSequence())
    && f.finNext.At(q.direction.Other()) == Some(q.segment.acknowledgement)
  }

  predicate IsRepeatedSyn(f: Flow, q: Query) {
    !f.closed && !Expired(f, q) && f.syn.At(q.direction) == Some(q.segment.sequence)
  }

  predicate IsSimultaneousOpen(f: Flow, q: Query) {
    && !f.closed && !Expired(f, q) && !f.midstream && !f.hasPayload
    && f.syn.At(q.direction).None? && f.syn.At(q.direction.Other()).Some?
  }

  datatype Role = OpenCandidate | ClosedCandidate | FinalAck

  predicate Plays(f: Flow, q: Query, role: Role) {
    && !Expired(f, q) && Plausible(f, q)
    && match role
       case OpenCandidate => !f.closed
       case ClosedCandidate => f.closed
       case FinalAck => f.closed && IsFinalAck(f, q)
  }

  /** The generations among the first k of the history that play a role for this segment. */
  function RoleTo(flows: seq<Flow>, history: seq<nat>, q: Query, role: Role, k: nat): set<nat>
    requires k <= |history|
  {
    set j | 0 <= j < k && history[j] < |flows| && Plays(flows[history[j]], q, role) :: history[j]
  }

  function RoleIn(t: Tracker, q: Query, role: Role): set<nat> {
    RoleTo(t.flows, History(t, q.key), q, role, |History(t, q.key)|)
  }

  /** The newest generation among the first k that this SYN repeats. */
  function NewestRepeat(flows: seq<Flow>, history: seq<nat>, q: Query, k: nat): Option<nat>
    requires k <= |history|
  {
    if k == 0 then None
    else if history[k - 1] < |flows| && IsRepeatedSyn(flows[history[k - 1]], q) then Some(history[k - 1])
    else NewestRepeat(flows, history, q, k - 1)
  }

  predicate AllExpired(t: Tracker, q: Query) {
    forall j | 0 <= j < |History(t, q.key)| ::
      History(t, q.key)[j] < |t.flows| && Expired(t.flows[History(t, q.key)[j]], q)
  }

  datatype Choice = Existing(id: nat) | Fresh(midstream: bool) | Refuse(outcome: Assignment)

  function SelectSyn(t: Tracker, q: Query): Choice {
    var history := History(t, q.key);
    var repeated := NewestRepeat(t.flows, history, q, |history|);
    if repeated.Some? then Existing(repeated.value)
    else if history != [] && history[|history| - 1] < |t.flows|
            && IsSimultaneousOpen(t.flows[history[|history| - 1]], q)
    then Existing(history[|history| - 1])
    else Fresh(false)
  }

  function SelectOther(t: Tracker, q: Query): Choice {
    var candidates := RoleIn(t, q, OpenCandidate);
    var closed := RoleIn(t, q, ClosedCandidate);
    var finals := RoleIn(t, q, FinalAck);
    if |finals| == 1 && |closed| == 1 && candidates == {} then Existing(Only(finals))
    else if closed != {} then
      if q.segment.syn && candidates == {} then Fresh(true)
      else if candidates == {} then Refuse(Unassigned(ClosedRequiresSyn))
      else Refuse(Ambiguous(closed + candidates))
    else if |candidates| > 1 then Refuse(Ambiguous(candidates))
    else if |candidates| == 1 then Existing(Only(candidates))
    else if AllExpired(t, q) || q.segment.syn then Fresh(true)
    else Refuse(Unassigned(OutsideKnownGenerations))
  }

  function Select(t: Tracker, q: Query): Choice {
    if q.segment.syn && !q.segment.ack then SelectSyn(t, q)
    else if History(t, q.key) == [] then Fresh(true)
    else SelectOther(t, q)
  }

  function Only(s: set<nat>): (x: nat)
    requires |s| == 1
    ensures s == {x}
  {
    OnlyMember(s);
    var x :| x in s;
    x
  }

  lemma {:induction false} OnlyMember(s: set<nat>)
    requires |s| == 1
    ensures exists x :: x in s
    ensures forall x, y | x in s && y in s :: x == y
    ensures forall x | x in s :: s == {x}
  {
    assert (forall x :: x !in s) ==> s == {};
    forall x | x in s ensures s == {x} {
      assert |s - {x}| == 0;
      assert s - {x} == {};
    }
  }

  function NewFlow(id: nat, generation: nat, key: FlowKey, midstream: bool): Flow {
    Flow(id, generation, key, Both(None, None), Both(None, None), Both(false, false), Both(None, None),
         false, false, false, midstream, None, None, {}, [], {})
  }

  function Create(t: Tracker, key: FlowKey, midstream: bool): Tracker {
    var id := |t.flows|;
    var ids := History(t, key);
    t.(keys := t.keys[key := ids + [id]], flows := t.flows + [NewFlow(id, |ids| + 1, key, midstream)])
  }

  function OrElse<T>(x: Option<T>, y: T): Option<T> {
    if x.Some? then x else Some(y)
  }

  function MergeTime(old_: Option<i128>, now: i128, later: bool): Option<i128> {
    if old_.None? then Some(now)
    else Some(if later then Max(old_.value, now) else Min(old_.value, now))
  }

  /** What accepting a segment does to its generation. */
  function Accept(f: Flow, q: Query, packets: set<PacketId>): Flow {
    var d, s := q.direction, q.segment;
    var fin := if s.fin then f.fin.With(d, true) else f.fin;
    var rst := f.rstSeen || s.rst;
    f.(syn := if s.syn then f.syn.With(d, Some(s.sequence)) else f.syn,
       anchors := f.anchors.With(d, OrElse(f.anchors.At(d), s.DataSequence())),
       firstNs := if q.when.Some? then MergeTime(f.firstNs, q.when.value, false) else f.firstNs,
       lastNs := if q.when.Some? then MergeTime(f.lastNs, q.when.value, true) else f.lastNs,
       anomalies := f.anomalies
         + (if q.when.None? then {TimeUnavailable}
            else if f.lastNs.Some? && q.when.value < f.lastNs.value then {ClockReversal} else {}),
       hasPayload := f.hasPayload || s.payload.data != [],
       fin := fin,
       finNext := if s.fin
                  then f.finNext.With(d, OrElse(f.finNext.At(d), Wrap32(s.DataSequence() + |s.payload.data| + 1)))
                  else f.finNext,
       rstSeen := rst,
       closed := f.closed || rst || (fin.forward && fin.reverse),
       packets := f.packets + packets + Packets(s.payload),
       inputs := f.inputs + [Input(d, s)])
  }

  /** Hand a segment to a chosen generation, or find that it cannot take it. */
  function Assign(t: Tracker, limits: Limits, q: Query, packets: set<PacketId>, id: nat): (Tracker, Result<Assignment>)
    requires id < |t.flows|
  {
    var f := t.flows[id];
    if |f.inputs| >= limits.maxSegmentsPerFlow then (t, Err(Limit("segments_per_flow")))
    else if q.segment.syn && f.syn.At(q.direction).Some? && f.syn.At(q.direction).value != q.segment.sequence
    then (t, Ok(Unassigned(ConflictingSyn)))
    else
      (t.(flows := t.flows[id := Accept(f, q, packets)], retained := t.retained + |q.segment.payload.data|),
       Ok(Assigned(id, q.direction)))
  }

  function Ingest(t: Tracker, limits: Limits, q: Query, packets: set<PacketId>): (Tracker, Result<Assignment>) {
    if packets == {} then (t, Err(Error(Invariant, "tcp_evidence")))
    else if t.retained + |q.segment.payload.data| > limits.maxRetainedPayload
    then (t, Err(Limit("tcp_retained_payload")))
    else match Select(t, q)
      case Refuse(outcome) => (t, Ok(outcome))
      case Existing(id) => if id < |t.flows| then Assign(t, limits, q, packets, id) else (t, Err(Limit("flows")))
      case Fresh(midstream) =>
        if |t.flows| >= limits.maxFlows then (t, Err(Limit("flows")))
        else Assign(Create(t, q.key, midstream), limits, q, packets, |t.flows|)
  }
}
