/** What every run of the tracker keeps. */
module TcpSafety {
  import opened Common
  import opened Provenance
  import opened TcpTracking

  // ---------------------------------------------------------------- consistency

  function PayloadOf(inputs: seq<Input>): nat {
    if inputs == [] then 0 else PayloadOf(inputs[..|inputs| - 1]) + |inputs[|inputs| - 1].segment.payload.data|
  }

  function StoredPayload(flows: seq<Flow>): nat {
    if flows == [] then 0 else StoredPayload(flows[..|flows| - 1]) + PayloadOf(flows[|flows| - 1].inputs)
  }

  /** Each generation of a key is listed once, in order, under its own number. */
  ghost predicate HistoryOk(t: Tracker, key: FlowKey) {
    && History(t, key) != []
    && (forall j | 0 <= j < |History(t, key)| :: HistoryEntryOk(t, key, j))
    && (forall i, j | 0 <= i < j < |History(t, key)| :: History(t, key)[i] < History(t, key)[j])
  }

  ghost predicate HistoryEntryOk(t: Tracker, key: FlowKey, j: int)
    requires 0 <= j < |History(t, key)|
  {
    var id := History(t, key)[j];
    id < |t.flows| && t.flows[id].key == key && t.flows[id].generation == j + 1
  }

  ghost predicate FlowListed(t: Tracker, id: int)
    requires 0 <= id < |t.flows|
  {
    var f := t.flows[id];
    && f.id == id && f.key in t.keys
    && 1 <= f.generation <= |t.keys[f.key]| && t.keys[f.key][f.generation - 1] == id
  }

  /** The flags of a generation say exactly what its accepted segments showed. */
  ghost predicate FlowOk(f: Flow) {
    && (f.rstSeen <==> exists i | 0 <= i < |f.inputs| :: f.inputs[i].segment.rst)
    && (f.hasPayload <==> exists i | 0 <= i < |f.inputs| :: f.inputs[i].segment.payload.data != [])
    && (f.fin.forward <==> exists i | 0 <= i < |f.inputs| :: f.inputs[i].direction == Forward && f.inputs[i].segment.fin)
    && (f.fin.reverse <==> exists i | 0 <= i < |f.inputs| :: f.inputs[i].direction == Reverse && f.inputs[i].segment.fin)
    && (f.closed <==> f.rstSeen || (f.fin.forward && f.fin.reverse))
    && (f.fin.forward ==> f.finNext.forward.Some? && f.anchors.forward.Some?)
    && (f.fin.reverse ==> f.finNext.reverse.Some? && f.anchors.reverse.Some?)
  }

  ghost predicate Consistent(t: Tracker, limits: Limits) {
    && (forall key | key in t.keys :: HistoryOk(t, key))
    && (forall id | 0 <= id < |t.flows| :: FlowListed(t, id))
    && (forall id | 0 <= id < |t.flows| :: FlowOk(t.flows[id]))
    && (forall id | 0 <= id < |t.flows| :: |t.flows[id].inputs| <= limits.maxSegmentsPerFlow)
    && t.retained == StoredPayload(t.flows) <= limits.maxRetainedPayload
    && |t.flows| <= limits.maxFlows
  }

  // ---------------------------------------------------------------- growth of one generation

  ghost predicate Sticky<T>(x: Both<Option<T>>, y: Both<Option<T>>) {
    (x.forward.Some? ==> y.forward == x.forward) && (x.reverse.Some? ==> y.reverse == x.reverse)
  }

  /** How a generation may change over any stretch of a run. */
  ghost predicate Grows(f: Flow, g: Flow) {
    && g.id == f.id && g.generation == f.generation && g.key == f.key && g.midstream == f.midstream
    && |f.inputs| <= |g.inputs| && (forall i | 0 <= i < |f.inputs| :: g.inputs[i] == f.inputs[i])
    && Sticky(f.syn, g.syn) && Sticky(f.anchors, g.anchors) && Sticky(f.finNext, g.finNext)
    && (f.fin.forward ==> g.fin.forward) && (f.fin.reverse ==> g.fin.reverse)
    && (f.hasPayload ==> g.hasPayload) && (f.rstSeen ==> g.rstSeen)
    && (f.closed ==> ClosedGrows(f, g))
    && (f.rstSeen ==> g == f)
  }

  /** A closed generation gains bare acknowledgements and nothing else. */
  ghost predicate ClosedGrows(f: Flow, g: Flow) {
    && g.closed && g.syn == f.syn && g.fin == f.fin && g.finNext == f.finNext && g.anchors == f.anchors
    && g.rstSeen == f.rstSeen && g.hasPayload == f.hasPayload
    && forall i | |f.inputs| <= i < |g.inputs| :: g.inputs[i].segment.Bare()
  }

  lemma {:induction false} GrowsTransitive(f: Flow, g: Flow, h: Flow)
    requires Grows(f, g) && Grows(g, h)
    ensures Grows(f, h)
  {
    if f.closed {
      forall i | |f.inputs| <= i < |h.inputs| ensures h.inputs[i].segment.Bare() {
        if i < |g.inputs| {
          assert h.inputs[i] == g.inputs[i];
        }
      }
    }
  }

  /** Accepting a segment grows an open generation; a closed one only through a final acknowledgement. */
  lemma {:induction false} AcceptGrows(f: Flow, q: Query, packets: set<PacketId>)
    requires FlowOk(f)
    requires q.segment.syn && f.syn.At(q.direction).Some? ==> f.syn.At(q.direction).value == q.segment.sequence
    requires f.closed ==> IsFinalAck(f, q)
    ensures Grows(f, Accept(f, q, packets))
  {
    var g := Accept(f, q, packets);
    assert forall i | 0 <= i < |f.inputs| :: g.inputs[i] == f.inputs[i];
  }

  lemma {:induction false} AcceptOk(f: Flow, q: Query, packets: set<PacketId>)
    requires FlowOk(f)
    ensures FlowOk(Accept(f, q, packets))
  {
    var g := Accept(f, q, packets);
    var n := |f.inputs|;
    assert g.inputs[n] == Input(q.direction, q.segment);
    assert forall i | 0 <= i < n :: g.inputs[i] == f.inputs[i];
    assert forall i | 0 <= i < |g.inputs| :: i == n || g.inputs[i] == f.inputs[i];
  }

  // ---------------------------------------------------------------- selection

  lemma {:induction false} RepeatFound(flows: seq<Flow>, history: seq<nat>, q: Query, k: nat)
    requires k <= |history|
    ensures var r := NewestRepeat(flows, history, q, k);
            && (r.Some? ==> r.value in history && r.value < |flows| && IsRepeatedSyn(flows[r.value], q))
            && (r.None? ==> forall j | 0 <= j < k :: history[j] < |flows| ==> !IsRepeatedSyn(flows[history[j]], q))
  {
    hide IsRepeatedSyn;
    if k > 0 {
      RepeatFound(flows, history, q, k - 1);
    }
  }

  lemma {:induction false} RoleMember(t: Tracker, q: Query, role: Role, id: nat)
    ensures id in RoleIn(t, q, role) <==>
              id in History(t, q.key) && id < |t.flows| && Plays(t.flows[id], q, role)
  {
    hide Plays, History;
    var history := History(t, q.key);
    if id in history {
      var j :| 0 <= j < |history| && history[j] == id;
    }
  }

  /** A generation is only chosen from the history of the segment's own key. */
  lemma {:induction false} SelectExisting(t: Tracker, q: Query)
    requires Select(t, q).Existing?
    ensures var id := Select(t, q).id;
            && id in History(t, q.key) && id < |t.flows|
            && (t.flows[id].closed ==> IsFinalAck(t.flows[id], q))
  {
    hide IsFinalAck, Plausible, RoleIn;
    var id := Select(t, q).id;
    RepeatFound(t.flows, History(t, q.key), q, |History(t, q.key)|);
    RoleMember(t, q, OpenCandidate, id);
    RoleMember(t, q, FinalAck, id);
  }

  /**
   Apart from a bare SYN, a segment joins an existing generation only when that generation is the
   single unexpired plausible one of its key.
   */
  lemma {:induction false} AssignmentUnambiguous(t: Tracker, q: Query, other: nat)
    requires !(q.segment.syn && !q.segment.ack) && Select(t, q).Existing?
    requires other in History(t, q.key) && other < |t.flows|
    requires !Expired(t.flows[other], q) && Plausible(t.flows[other], q)
    ensures other == Select(t, q).id
  {
    hide Plausible, Expired, IsFinalAck, RoleIn;
    RoleMember(t, q, OpenCandidate, other);
    RoleMember(t, q, ClosedCandidate, other);
    var candidates, closed, finals := RoleIn(t, q, OpenCandidate), RoleIn(t, q, ClosedCandidate), RoleIn(t, q, FinalAck);
    if |finals| == 1 && |closed| == 1 && candidates == {} {
      RoleMember(t, q, FinalAck, Only(finals));
      RoleMember(t, q, ClosedCandidate, Only(finals));
      OnlyMember(closed);
    }
  }

  lemma {:induction false} RefusalAssignsNothing(t: Tracker, q: Query)
    ensures Select(t, q).Refuse? ==> !Select(t, q).outcome.Assigned?
  {
  }

  // ---------------------------------------------------------------- one step

  lemma {:induction false} FreshAccepts(t: Tracker, limits: Limits, q: Query, packets: set<PacketId>, midstream: bool)
    requires limits.Valid()
    ensures Assign(Create(t, q.key, midstream), limits, q, packets, |t.flows|).1 == Ok(Assigned(|t.flows|, q.direction))
  {
  }

  /** A refused, ambiguous or failing segment leaves no trace. */
  lemma {:induction false} OnlyAssignmentChanges(t: Tracker, limits: Limits, q: Query, packets: set<PacketId>)
    requires limits.Valid()
    ensures var (after, r) := Ingest(t, limits, q, packets);
            !(r.Ok? && r.value.Assigned?) ==> after == t
  {
    hide Select, Accept, Create;
    var choice := Select(t, q);
    if choice.Fresh? {
      FreshAccepts(t, limits, q, packets, choice.midstream);
    }
  }

  /** An accepted segment changes exactly one generation, of its own key, by accepting it there. */
  lemma {:induction false} AssignmentLocal(t: Tracker, limits: Limits, q: Query, packets: set<PacketId>)
    requires Consistent(t, limits) && limits.Valid()
    requires Ingest(t, limits, q, packets).1.Ok? && Ingest(t, limits, q, packets).1.value.Assigned?
    ensures var (after, r) := Ingest(t, limits, q, packets);
            var id := r.value.flow;
            && r.value.direction == q.direction
            && id <= |t.flows| && |after.flows| == Max(|t.flows|, id + 1)
            && (forall i | 0 <= i < |t.flows| && i != id :: after.flows[i] == t.flows[i])
            && after.flows[id].key == q.key
            && (id < |t.flows| ==> after.flows[id] == Accept(t.flows[id], q, packets) && after.keys == t.keys)
            && after.retained == t.retained + |q.segment.payload.data|
  {
    hide Select, Accept, History, FlowOk, StoredPayload;
    var choice := Select(t, q);
    RefusalAssignsNothing(t, q);
    if choice.Existing? {
      SelectExisting(t, q);
      KeyOfHistory(t, limits, q.key, choice.id);
      AcceptKeepsKey(t.flows[choice.id], q, packets);
    } else if choice.Fresh? {
      AcceptKeepsKey(NewFlow(|t.flows|, |History(t, q.key)| + 1, q.key, choice.midstream), q, packets);
    }
  }

  lemma {:induction false} AcceptKeepsKey(f: Flow, q: Query, packets: set<PacketId>)
    ensures var g := Accept(f, q, packets);
            g.key == f.key && g.id == f.id && g.generation == f.generation && g.inputs == f.inputs + [Input(q.direction, q.segment)]
  {
  }

  lemma {:induction false} KeyOfHistory(t: Tracker, limits: Limits, key: FlowKey, id: nat)
    requires Consistent(t, limits) && id in History(t, key)
    ensures id < |t.flows| && t.flows[id].key == key
  {
    hide FlowOk, StoredPayload;
    assert HistoryOk(t, key);
    var j :| 0 <= j < |History(t, key)| && History(t, key)[j] == id;
    assert HistoryEntryOk(t, key, j);
  }

  lemma {:induction false} StoredUpdate(flows: seq<Flow>, id: nat, g: Flow)
    requires id < |flows|
    ensures StoredPayload(flows[id := g])
         == StoredPayload(flows) - PayloadOf(flows[id].inputs) + PayloadOf(g.inputs)
  {
    hide PayloadOf;
    var after := flows[id := g];
    if id == |flows| - 1 {
      assert after[..|after| - 1] == flows[..|flows| - 1];
    } else {
      StoredUpdate(flows[..|flows| - 1], id, g);
      assert after[..|after| - 1] == flows[..|flows| - 1][id := g];
    }
  }

  lemma {:induction false} PayloadSnoc(inputs: seq<Input>, x: Input)
    ensures PayloadOf(inputs + [x]) == PayloadOf(inputs) + |x.segment.payload.data|
  {
    assert (inputs + [x])[..|inputs|] == inputs;
  }

  lemma {:induction false} AssignConsistent(t: Tracker, limits: Limits, q: Query, packets: set<PacketId>, id: nat)
    requires Consistent(t, limits) && id < |t.flows|
    requires t.retained + |q.segment.payload.data| <= limits.maxRetainedPayload
    ensures Consistent(Assign(t, limits, q, packets, id).0, limits)
  {
    hide Accept, FlowOk, StoredPayload, PayloadOf;
    var (after, r) := Assign(t, limits, q, packets, id);
    if r.Ok? && r.value.Assigned? {
      var f, g := t.flows[id], Accept(t.flows[id], q, packets);
      AcceptOk(f, q, packets);
      AcceptKeepsKey(f, q, packets);
      PayloadSnoc(f.inputs, Input(q.direction, q.segment));
      StoredUpdate(t.flows, id, g);
      forall key | key in after.keys ensures HistoryOk(after, key) {
        assert HistoryOk(t, key);
        forall j | 0 <= j < |History(after, key)| ensures HistoryEntryOk(after, key, j) {
          assert HistoryEntryOk(t, key, j);
        }
      }
      forall i | 0 <= i < |after.flows| ensures FlowListed(after, i) {
        assert FlowListed(t, i);
      }
    }
  }

  lemma {:induction false} CreateConsistent(t: Tracker, limits: Limits, key: FlowKey, midstream: bool)
    requires Consistent(t, limits) && |t.flows| < limits.maxFlows
    ensures Consistent(Create(t, key, midstream), limits)
  {
    hide FlowOk, HistoryOk, FlowListed, StoredPayload, NewFlow;
    var after := Create(t, key, midstream);
    NewFlowOk(|t.flows|, |History(t, key)| + 1, key, midstream);
    CreateStores(t, key, midstream);
    forall k | k in after.keys ensures HistoryOk(after, k) {
      CreateHistory(t, limits, key, midstream, k);
    }
    forall i | 0 <= i < |after.flows| ensures FlowListed(after, i) {
      CreateListed(t, limits, key, midstream, i);
    }
  }

  lemma {:induction false} CreateStores(t: Tracker, key: FlowKey, midstream: bool)
    ensures StoredPayload(Create(t, key, midstream).flows) == StoredPayload(t.flows)
  {
    assert Create(t, key, midstream).flows[..|t.flows|] == t.flows;
  }

  lemma {:induction false} CreateListed(t: Tracker, limits: Limits, key: FlowKey, midstream: bool, i: int)
    requires Consistent(t, limits) && 0 <= i < |Create(t, key, midstream).flows|
    ensures FlowListed(Create(t, key, midstream), i)
  {
    hide FlowOk, HistoryOk, StoredPayload;
    if i < |t.flows| {
      assert FlowListed(t, i);
    }
  }

  lemma {:induction false} NewFlowOk(id: nat, generation: nat, key: FlowKey, midstream: bool)
    ensures FlowOk(NewFlow(id, generation, key, midstream)) && NewFlow(id, generation, key, midstream).inputs == []
  {
  }

  lemma {:induction false} CreateHistory(t: Tracker, limits: Limits, key: FlowKey, midstream: bool, k: FlowKey)
    requires Consistent(t, limits) && k in Create(t, key, midstream).keys
    ensures HistoryOk(Create(t, key, midstream), k)
  {
    hide FlowOk, StoredPayload;
    var after := Create(t, key, midstream);
    if k in t.keys {
      assert HistoryOk(t, k);
    }
    forall j | 0 <= j < |History(after, k)| ensures HistoryEntryOk(after, k, j) {
      if j < |History(t, k)| {
        assert HistoryEntryOk(t, k, j);
      }
    }
    forall i, j | 0 <= i < j < |History(after, k)| ensures History(after, k)[i] < History(after, k)[j] {
      assert HistoryEntryOk(t, k, i);
    }
  }

  /** Every step keeps the tracker consistent. */
  lemma {:induction false} IngestConsistent(t: Tracker, limits: Limits, q: Query, packets: set<PacketId>)
    requires Consistent(t, limits)
    ensures Consistent(Ingest(t, limits, q, packets).0, limits)
  {
    hide Select, Assign, Create, Consistent;
    var choice := Select(t, q);
    if t.retained + |q.segment.payload.data| <= limits.maxRetainedPayload {
      if choice.Existing? {
        if choice.id < |t.flows| {
          AssignConsistent(t, limits, q, packets, choice.id);
        }
      } else if choice.Fresh? && |t.flows| < limits.maxFlows {
        CreateConsistent(t, limits, q.key, choice.midstream);
        CreateAppends(t, q.key, choice.midstream);
        AssignConsistent(Create(t, q.key, choice.midstream), limits, q, packets, |t.flows|);
      }
    }
  }

  lemma {:induction false} CreateAppends(t: Tracker, key: FlowKey, midstream: bool)
    ensures var after := Create(t, key, midstream);
            |after.flows| == |t.flows| + 1 && after.flows[..|t.flows|] == t.flows && after.retained == t.retained
  {
  }

  /** Every step grows every generation in the permitted way. */
  lemma {:induction false} IngestGrows(t: Tracker, limits: Limits, q: Query, packets: set<PacketId>, id: nat)
    requires Consistent(t, limits) && limits.Valid() && id < |t.flows|
    ensures id < |Ingest(t, limits, q, packets).0.flows|
    ensures Grows(t.flows[id], Ingest(t, limits, q, packets).0.flows[id])
  {
    hide Ingest, Grows, Accept, FlowOk, StoredPayload, HistoryOk, IsFinalAck;
    var (after, r) := Ingest(t, limits, q, packets);
    OnlyAssignmentChanges(t, limits, q, packets);
    GrowsReflexive(t.flows[id]);
    if r.Ok? && r.value.Assigned? {
      AssignmentLocal(t, limits, q, packets);
      if r.value.flow == id {
        AssignedLegally(t, limits, q, packets, id);
        AcceptGrows(t.flows[id], q, packets);
      }
    }
  }

  lemma {:induction false} GrowsReflexive(f: Flow)
    ensures Grows(f, f)
  {
  }

  /** An existing generation that receives a segment was entitled to it. */
  lemma {:induction false} AssignedLegally(t: Tracker, limits: Limits, q: Query, packets: set<PacketId>, id: nat)
    requires id < |t.flows|
    requires Ingest(t, limits, q, packets).1 == Ok(Assigned(id, q.direction))
    ensures var f := t.flows[id];
            && (q.segment.syn && f.syn.At(q.direction).Some? ==> f.syn.At(q.direction).value == q.segment.sequence)
            && (f.closed ==> IsFinalAck(f, q))
  {
    hide Select, Accept, Create, IsFinalAck;
    var choice := Select(t, q);
    RefusalAssignsNothing(t, q);
    if choice.Existing? {
      SelectExisting(t, q);
    }
  }

  // ---------------------------------------------------------------- evidence

  /** Every accepted payload comes from packets the generation holds. */
  ghost predicate Sourced(f: Flow) {
    forall i | 0 <= i < |f.inputs| :: Packets(f.inputs[i].segment.payload) <= f.packets
  }

  ghost predicate AllSourced(flows: seq<Flow>) {
    forall id | 0 <= id < |flows| :: Sourced(flows[id])
  }

  lemma {:induction false} AcceptSourced(f: Flow, q: Query, packets: set<PacketId>)
    requires Sourced(f)
    ensures Sourced(Accept(f, q, packets)) && Accept(f, q, packets).packets == f.packets + packets + Packets(q.segment.payload)
  {
    hide Packets;
    var g := Accept(f, q, packets);
    forall i | 0 <= i < |g.inputs| ensures Packets(g.inputs[i].segment.payload) <= g.packets {
      if i < |f.inputs| {
        assert g.inputs[i] == f.inputs[i];
      }
    }
  }

  /** The generation that takes a segment, perhaps a new one, gains the segment's packets; the others keep theirs. */
  lemma {:induction false} IngestSourced(t: Tracker, limits: Limits, q: Query, packets: set<PacketId>)
    requires limits.Valid() && AllSourced(t.flows)
    ensures var (after, r) := Ingest(t, limits, q, packets);
            && AllSourced(after.flows)
            && (r.Ok? && r.value.Assigned? ==>
                  var id := r.value.flow;
                  && id <= |t.flows| && |after.flows| == Max(|t.flows|, id + 1)
                  && (forall i | 0 <= i < |t.flows| && i != id :: after.flows[i] == t.flows[i])
                  && after.flows[id].packets
                     == (if id < |t.flows| then t.flows[id].packets else {}) + packets + Packets(q.segment.payload))
  {
    hide Select, Accept, Sourced, Packets, History;
    var choice := Select(t, q);
    RefusalAssignsNothing(t, q);
    if choice.Existing? && choice.id < |t.flows| {
      AcceptSourced(t.flows[choice.id], q, packets);
    } else if choice.Fresh? {
      var f := NewFlow(|t.flows|, |History(t, q.key)| + 1, q.key, choice.midstream);
      NewFlowSourced(|t.flows|, |History(t, q.key)| + 1, q.key, choice.midstream);
      AcceptSourced(f, q, packets);
    }
  }

  lemma {:induction false} NewFlowSourced(id: nat, generation: nat, key: FlowKey, midstream: bool)
    ensures Sourced(NewFlow(id, generation, key, midstream)) && NewFlow(id, generation, key, midstream).packets == {}
  {
  }

  // ---------------------------------------------------------------- runs

  datatype Arrival = Arrival(query: Query, packets: set<PacketId>)

  function Run(t: Tracker, limits: Limits, xs: seq<Arrival>): Tracker {
    if xs == [] then t
    else Ingest(Run(t, limits, xs[..|xs| - 1]), limits, xs[|xs| - 1].query, xs[|xs| - 1].packets).0
  }

  /** Consistency holds after every run from an empty tracker. */
  lemma {:induction false} RunConsistent(limits: Limits, xs: seq<Arrival>)
    ensures Consistent(Run(NO_TRACKER, limits, xs), limits)
  {
    hide Ingest, Consistent;
    if xs == [] {
      EmptyConsistent(limits);
    } else {
      RunConsistent(limits, xs[..|xs| - 1]);
      IngestConsistent(Run(NO_TRACKER, limits, xs[..|xs| - 1]), limits, xs[|xs| - 1].query, xs[|xs| - 1].packets);
    }
  }

  lemma {:induction false} EmptyConsistent(limits: Limits)
    ensures Consistent(NO_TRACKER, limits)
  {
  }

  /**
   Over any continuation of any run, a generation only grows: it keeps its identity, anchors, SYNs and
   FIN positions; once closed it gains bare acknowledgements only; once reset it never changes again.
   */
  lemma {:induction false} RunGrows(t: Tracker, limits: Limits, xs: seq<Arrival>, id: nat)
    requires Consistent(t, limits) && limits.Valid() && id < |t.flows|
    ensures Consistent(Run(t, limits, xs), limits)
    ensures id < |Run(t, limits, xs).flows|
    ensures Grows(t.flows[id], Run(t, limits, xs).flows[id])
  {
    hide Ingest, Consistent, Grows;
    if xs == [] {
      GrowsReflexive(t.flows[id]);
    } else {
      var init, last := xs[..|xs| - 1], xs[|xs| - 1];
      var middle := Run(t, limits, init);
      RunGrows(t, limits, init, id);
      IngestConsistent(middle, limits, last.query, last.packets);
      IngestGrows(middle, limits, last.query, last.packets, id);
      GrowsTransitive(t.flows[id], middle.flows[id], Run(t, limits, xs).flows[id]);
    }
  }
}
