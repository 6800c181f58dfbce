/** The tracker as the program keeps it: a key map and a list of flows updated in place. */
module TcpTrackerEngine {
  import opened Common
  import opened Provenance
  import opened TcpTracking
  import opened TcpSafety

  ghost predicate InRange(flows: seq<Flow>, history: seq<nat>) {
    forall j | 0 <= j < |history| :: history[j] < |flows|
  }

  /** Search the generations from the newest for one that this SYN repeats. */
  method FindRepeat(flows: seq<Flow>, history: seq<nat>, q: Query) returns (r: Option<nat>)
    requires InRange(flows, history)
    ensures r == NewestRepeat(flows, history, q, |history|)
  {
    hide IsRepeatedSyn;
    var k := |history|;
    while k > 0
      invariant 0 <= k <= |history|
      invariant NewestRepeat(flows, history, q, |history|) == NewestRepeat(flows, history, q, k)
    {
      if IsRepeatedSyn(flows[history[k - 1]], q) {
        return Some(history[k - 1]);
      }
      k := k - 1;
    }
    r := None;
  }

  lemma {:induction false} RoleStep(flows: seq<Flow>, history: seq<nat>, q: Query, role: Role, k: nat)
    requires InRange(flows, history) && k < |history|
    ensures RoleTo(flows, history, q, role, 0) == {}
    ensures RoleTo(flows, history, q, role, k + 1)
         == RoleTo(flows, history, q, role, k)
            + if Plays(flows[history[k]], q, role) then {history[k]} else {}
  {
    hide Plays;
  }

  /** Sort the unexpired plausible generations into open, closed and finally acknowledged ones. */
  method Classify(flows: seq<Flow>, history: seq<nat>, q: Query)
    returns (candidates: set<nat>, closed: set<nat>, finals: set<nat>)
    requires InRange(flows, history)
    ensures candidates == RoleTo(flows, history, q, OpenCandidate, |history|)
    ensures closed == RoleTo(flows, history, q, ClosedCandidate, |history|)
    ensures finals == RoleTo(flows, history, q, FinalAck, |history|)
  {
    hide RoleTo, Plausible, Expired, IsFinalAck;
    candidates, closed, finals := {}, {}, {};
    if history != [] {
      RoleStep(flows, history, q, OpenCandidate, 0);
      RoleStep(flows, history, q, ClosedCandidate, 0);
      RoleStep(flows, history, q, FinalAck, 0);
    } else {
      NoRoles(flows, history, q);
    }
    var k := 0;
    while k < |history|
      invariant 0 <= k <= |history|
      invariant candidates == RoleTo(flows, history, q, OpenCandidate, k)
      invariant closed == RoleTo(flows, history, q, ClosedCandidate, k)
      invariant finals == RoleTo(flows, history, q, FinalAck, k)
    {
      RoleStep(flows, history, q, OpenCandidate, k);
      RoleStep(flows, history, q, ClosedCandidate, k);
      RoleStep(flows, history, q, FinalAck, k);
      var id := history[k];
      var f := flows[id];
      if !Expired(f, q) && Plausible(f, q) {
        if f.closed {
          closed := closed + {id};
          if IsFinalAck(f, q) {
            finals := finals + {id};
          }
        } else {
          candidates := candidates + {id};
        }
      }
      k := k + 1;
    }
  }

  lemma {:induction false} NoRoles(flows: seq<Flow>, history: seq<nat>, q: Query)
    requires history == []
    ensures forall role :: RoleTo(flows, history, q, role, 0) == {}
  {
  }

  method EveryExpired(t: Tracker, q: Query) returns (all: bool)
    requires InRange(t.flows, History(t, q.key))
    ensures all == AllExpired(t, q)
  {
    hide Expired;
    var history := History(t, q.key);
    var k := 0;
    while k < |history|
      invariant 0 <= k <= |history|
      invariant forall j | 0 <= j < k :: Expired(t.flows[history[j]], q)
    {
      if !Expired(t.flows[history[k]], q) {
        return false;
      }
      k := k + 1;
    }
    all := true;
  }

  /** Decide which generation takes the segment. */
  method Decide(t: Tracker, q: Query) returns (choice: Choice)
    requires InRange(t.flows, History(t, q.key))
    ensures choice == Select(t, q)
  {
    hide RoleTo, AllExpired, NewestRepeat, IsSimultaneousOpen, History;
    var history := History(t, q.key);
    if q.segment.syn && !q.segment.ack {
      var repeated := FindRepeat(t.flows, history, q);
      if repeated.Some? {
        return Existing(repeated.value);
      }
      if history != [] && IsSimultaneousOpen(t.flows[history[|history| - 1]], q) {
        return Existing(history[|history| - 1]);
      }
      return Fresh(false);
    }
    if history == [] {
      return Fresh(true);
    }
    var candidates, closed, finals := Classify(t.flows, history, q);
    if |finals| == 1 && |closed| == 1 && candidates == {} {
      return Existing(Only(finals));
    }
    if closed != {} {
      if q.segment.syn && candidates == {} {
        return Fresh(true);
      }
      if candidates == {} {
        return Refuse(Unassigned(ClosedRequiresSyn));
      }
      return Refuse(Ambiguous(closed + candidates));
    }
    if |candidates| > 1 {
      return Refuse(Ambiguous(candidates));
    }
    if |candidates| == 1 {
      return Existing(Only(candidates));
    }
    var expired := EveryExpired(t, q);
    if expired || q.segment.syn {
      return Fresh(true);
    }
    choice := Refuse(Unassigned(OutsideKnownGenerations));
  }

  function QueryFor(scope: Scope, when: Option<i128>, segment: Segment, limits: Limits, idle: i128): Query {
    var (key, direction) := KeyOf(scope, segment.source, segment.destination);
    Query(key, direction, when, segment, limits.maxStreamSpan, idle)
  }

  lemma {:induction false} HistoryInRange(t: Tracker, limits: Limits, key: FlowKey)
    requires Consistent(t, limits)
    ensures InRange(t.flows, History(t, key))
  {
    hide FlowOk, StoredPayload;
    forall j | 0 <= j < |History(t, key)| ensures History(t, key)[j] < |t.flows| {
      KeyOfHistory(t, limits, key, History(t, key)[j]);
    }
  }

  class TcpTracker {
    var keys: map<FlowKey, seq<nat>>
    var flows: seq<Flow>
    var retained: nat
    const limits: Limits
    const idleNs: i128

    ghost function State(): Tracker
      reads this
    {
      Tracker(keys, flows, retained)
    }

    constructor (limits: Limits, idleNs: i128)
      ensures State() == NO_TRACKER && this.limits == limits && this.idleNs == idleNs
      ensures Consistent(State(), limits)
    {
      this.keys := map[];
      this.flows := [];
      this.retained := 0;
      this.limits := limits;
      this.idleNs := idleNs;
      new;
      EmptyConsistent(limits);
    }

    /** A tracker only exists over valid budgets and a positive idle timeout. */
    static method New(limits: Limits, idleNs: i128) returns (r: Result<TcpTracker>)
      ensures r.Ok? <==> limits.Valid() && idleNs > 0
      ensures r.Ok? ==> fresh(r.value) && r.value.State() == NO_TRACKER && r.value.limits == limits && r.value.idleNs == idleNs
    {
      if !limits.Valid() {
        return Err(LIMITS_ERROR);
      }
      if idleNs <= 0 {
        return Err(Error(Usage, "idle_timeout"));
      }
      var t := new TcpTracker(limits, idleNs);
      r := Ok(t);
    }

    /** Open a new generation of a key and return its flow number. */
    method CreateFlow(key: FlowKey, midstream: bool) returns (id: nat)
      modifies this`keys, this`flows
      ensures id == old(|flows|) && State() == Create(old(State()), key, midstream)
    {
      id := |flows|;
      var ids := if key in keys then keys[key] else [];
      keys := keys[key := ids + [id]];
      flows := flows + [NewFlow(id, |ids| + 1, key, midstream)];
    }

    /** Give a segment to a generation, unless the generation is full or holds another SYN. */
    method AssignTo(q: Query, packets: set<PacketId>, id: nat) returns (r: Result<Assignment>)
      requires id < |flows|
      modifies this`flows, this`retained
      ensures (State(), r) == Assign(old(State()), limits, q, packets, id)
    {
      hide Accept;
      var f := flows[id];
      if |f.inputs| >= limits.maxSegmentsPerFlow {
        return Err(Limit("segments_per_flow"));
      }
      if q.segment.syn && f.syn.At(q.direction).Some? && f.syn.At(q.direction).value != q.segment.sequence {
        return Ok(Unassigned(ConflictingSyn));
      }
      flows := flows[id := Accept(f, q, packets)];
      retained := retained + |q.segment.payload.data|;
      r := Ok(Assigned(id, q.direction));
    }

    method IngestWithPackets(scope: Scope, packets: set<PacketId>, when: Option<i128>, segment: Segment)
      returns (r: Result<Assignment>)
      requires Consistent(State(), limits)
      modifies this
      ensures Consistent(State(), limits)
      ensures (State(), r) == Ingest(old(State()), limits, QueryFor(scope, when, segment, limits, idleNs), packets)
    {
      hide Consistent, Select, Assign, Create, QueryFor;
      ghost var before := State();
      var q := QueryFor(scope, when, segment, limits, idleNs);
      assert q.segment == segment by {
        QueryCarries(scope, when, segment, limits, idleNs);
      }
      IngestConsistent(State(), limits, q, packets);
      if packets == {} {
        return Err(Error(Invariant, "tcp_evidence"));
      }
      if retained + |segment.payload.data| > limits.maxRetainedPayload {
        return Err(Limit("tcp_retained_payload"));
      }
      HistoryInRange(State(), limits, q.key);
      var choice := Decide(Tracker(keys, flows, retained), q);
      match choice {
        case Refuse(outcome) =>
          r := Ok(outcome);
        case Existing(id) =>
          SelectExisting(State(), q);
          r := AssignTo(q, packets, id);
        case Fresh(midstream) =>
          if |flows| >= limits.maxFlows {
            return Err(Limit("flows"));
          }
          CreateAppends(State(), q.key, midstream);
          var id := CreateFlow(q.key, midstream);
          r := AssignTo(q, packets, id);
      }
    }
  }

  lemma {:induction false} QueryCarries(scope: Scope, when: Option<i128>, segment: Segment, limits: Limits, idle: i128)
    ensures QueryFor(scope, when, segment, limits, idle).segment == segment
  {
  }
}
