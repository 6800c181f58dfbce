/** The bounded store over whole runs: its answers do not depend on how many tuples it keeps in memory. */
module StoreRuns {
  import opened Common
  import Codec
  import Epochs
  import opened HistoryModel
  import opened HistoryInput
  import opened TupleStates
  import opened StateStore

  /** The unbounded map after the first k inputs, with its decisions, while all of them succeed. */
  function ReferenceRun(known: Known, inputs: seq<TcpInput>, source: SourceIdentity, c: Config, o: Opaque, k: nat): Option<(Known, seq<Decision>)>
    requires k <= |inputs|
  {
    if k == 0 then Some((known, []))
    else
      match ReferenceRun(known, inputs, source, c, o, k - 1)
      case None => None
      case Some(before) =>
        var (after, r) := Reference(before.0, inputs[k - 1], source, c, o);
        if r.Ok? then Some((after, before.1 + [r.value])) else None
  }

  /** Feed a whole run to a store; if it answers throughout, so does the unbounded map, identically. */
  method Replay(store: Store, inputs: seq<TcpInput>) returns (r: Option<seq<Decision>>)
    requires store.Valid() && !store.failed
    requires forall i | 0 <= i < |inputs| :: Strings(inputs[i].key, store.primitives)
    modifies store, store.quota
    ensures store.Valid() && (r.Some? <==> !store.failed)
    ensures r.Some? ==>
              ReferenceRun(old(store.known), inputs, store.source, store.config, store.primitives, |inputs|)
              == Some((store.known, r.value))
  {
    hide Reference, Consistent, Strings;
    var decisions: seq<Decision> := [];
    for k := 0 to |inputs|
      invariant store.Valid() && !store.failed
      invariant ReferenceRun(old(store.known), inputs, store.source, store.config, store.primitives, k) == Some((store.known, decisions))
    {
      var d := store.IngestTuple(inputs[k]);
      if d.Err? {
        return None;
      }
      decisions := decisions + [d.value];
    }
    r := Some(decisions);
  }

  // ---------------------------------------------------------------- the memory bound does not matter

  ghost predicate SameButHot(c: Config, e: Config) {
    c.Valid() && e.Valid() && e == c.(hotTuples := e.hotTuples)
  }

  lemma {:induction false} ChoicesInIgnoreHot(g: Generation, i: nat, p: Packet, c: Config, e: Config)
    requires SameButHot(c, e)
    ensures ChoicesIn(g, i, p, c) == ChoicesIn(g, i, p, e)
  {
    hide HandshakeExcludes, ChoicesAt, Epochs.EpochCandidates;
  }

  lemma {:induction false} ChoicesIgnoreHot(gs: seq<Generation>, p: Packet, c: Config, e: Config, k: nat)
    requires SameButHot(c, e) && k <= |gs|
    ensures ChoicesTo(gs, p, c, k) == ChoicesTo(gs, p, e, k)
  {
    hide ChoicesIn, SameButHot;
    if k > 0 {
      ChoicesIgnoreHot(gs, p, c, e, k - 1);
      ChoicesInIgnoreHot(gs[k - 1], k - 1, p, c, e);
    }
  }

  lemma {:induction false} GatherIgnoresHot(s: TupleState, p: Packet, source: SourceIdentity, c: Config, e: Config, o: Opaque)
    requires SameButHot(c, e)
    ensures Gather(s, p, source, c, o) == Gather(s, p, source, e, o)
  {
    hide ChoicesTo, RepeatedSyns, OpensSimultaneously, EncodeKey, GenerationSeed;
    ChoicesIgnoreHot(s.generations, p, c, e, |s.generations|);
  }

  lemma {:induction false} DecideIgnoresHot(s: TupleState, q: Gathered, p: Packet, c: Config, e: Config, before: Codec.Digest, o: Opaque)
    requires SameButHot(c, e) && ValidChoices(q.candidates, q.generations)
    ensures Decide(s, q, p, c, before, o) == Decide(s, q, p, e, before, o)
  {
    hide Select, EncodeState, Extend, ExtendReasons, Note;
    SelectedIndex(q.generations, q.candidates, p.direction, c.epochPolicy);
  }

  lemma {:induction false} DeriveIgnoresHot(i: TcpInput, c: Config, e: Config, o: Opaque)
    requires SameButHot(c, e)
    ensures Derive(i, c, o) == Derive(i, e, o)
  {
    hide CheckOptions, WitnessesTile, Canonical;
  }

  lemma {:induction false} IngestIgnoresHot(s: TupleState, i: TcpInput, source: SourceIdentity, c: Config, e: Config, o: Opaque)
    requires SameButHot(c, e)
    ensures Ingest(s, i, source, c, o) == Ingest(s, i, source, e, o)
  {
    hide Derive, Gather, Decide, EncodeState, EncodeKey;
    DeriveIgnoresHot(i, c, e, o);
    if Derive(i, c, o).Ok? {
      var p := Derive(i, c, o).value;
      GatherIgnoresHot(s, p, source, c, e, o);
      GatherValid(s, p, source, c, o);
      if Gather(s, p, source, c, o).Ok? && EncodeState(s, o).Ok? {
        DecideIgnoresHot(s, Gather(s, p, source, c, o).value, p, c, e, o.sha256(EncodeState(s, o).value), o);
      }
    }
  }

  /** Stores that differ only in how much they keep in memory follow the same reference run. */
  lemma {:induction false} RunIgnoresHot(known: Known, inputs: seq<TcpInput>, source: SourceIdentity, c: Config, e: Config, o: Opaque, k: nat)
    requires SameButHot(c, e) && k <= |inputs|
    ensures ReferenceRun(known, inputs, source, c, o, k) == ReferenceRun(known, inputs, source, e, o, k)
  {
    hide Ingest, SameButHot;
    if k > 0 {
      RunIgnoresHot(known, inputs, source, c, e, o, k - 1);
      match ReferenceRun(known, inputs, source, c, o, k - 1) {
        case None =>
        case Some(before) =>
          var p := inputs[k - 1];
          IngestIgnoresHot(if p.key in before.0 then before.0[p.key] else TupleState(p.key, []), p, source, c, e, o);
      }
    }
  }
}
