/** Arrival order in a SYN-anchored direction: which orders are accepted, and what they rebuild. */
module StreamOrder {
  import opened Common
  import opened Boundaries
  import opened Provenance
  import opened StreamSweep
  import opened StreamConservation
  import opened StreamAssembly

  /** What one direction observes after its SYN: payload, or the position of a FIN. */
  datatype Arrival = Payload(sequence: u32, bytes: Evidence) | Fin(sequence: u32)

  function Take(a: Assembly, limits: Limits, x: Arrival): Result<Assembly> {
    match x
    case Payload(sequence, bytes) => PushSpec(a, limits, sequence, bytes)
    case Fin(sequence) => EndSpec(a, limits, sequence)
  }

  /** A run of pushes and FINs in any interleaving, stopping at the first refusal. */
  function TakeAll(a: Assembly, limits: Limits, xs: seq<Arrival>): Result<Assembly> {
    if xs == [] then Ok(a)
    else
      var before :- TakeAll(a, limits, xs[..|xs| - 1]);
      Take(before, limits, xs[|xs| - 1])
  }

  /** An arrival that a SYN-anchored stream can hold on its own. */
  predicate Placeable(base: u32, limits: Limits, x: Arrival) {
    var delta := SequenceDelta(x.sequence, base);
    match x
    case Payload(_, bytes) =>
      bytes.data == [] || (Valid(bytes) && delta.Ok? && 0 <= delta.value && delta.value + |bytes.data| <= limits.maxStreamSpan)
    case Fin(_) => delta.Ok? && 0 <= delta.value <= limits.maxStreamSpan
  }

  function Place(base: u32, x: Arrival): seq<Segment> {
    if x.Fin? || x.bytes.data == [] then []
    else match SequenceDelta(x.sequence, base)
      case Ok(start) => [Segment(start, x.bytes)]
      case Err(_) => []
  }

  function Placed(base: u32, xs: seq<Arrival>): seq<Segment> {
    if xs == [] then [] else Placed(base, xs[..|xs| - 1]) + Place(base, xs[|xs| - 1])
  }

  /** All FINs say the same position. */
  ghost predicate FinsAgree(base: u32, xs: seq<Arrival>) {
    forall x, y | x in xs && y in xs && x.Fin? && y.Fin? :: SequenceDelta(x.sequence, base) == SequenceDelta(y.sequence, base)
  }

  /** Acceptance said without reference to order. */
  ghost predicate Acceptable(base: u32, limits: Limits, xs: seq<Arrival>) {
    && (forall x | x in xs :: Placeable(base, limits, x)) && FinsAgree(base, xs)
    && TotalBytes(Placed(base, xs)) <= limits.maxRetainedPayload
    && |Placed(base, xs)| <= limits.maxSegmentsPerFlow
  }

  /** The position the FINs of a run name, if there are any. */
  ghost predicate FinIs(base: u32, xs: seq<Arrival>, fin: Option<int>) {
    && (fin.Some? <==> exists x :: x in xs && x.Fin?)
    && (forall x | x in xs && x.Fin? :: fin.Some? && SequenceDelta(x.sequence, base) == Ok(fin.value))
  }

  /** The end of the highest segment, or 0. */
  ghost predicate Highest(segs: seq<Segment>, m: int) {
    && 0 <= m && (forall i | 0 <= i < |segs| :: segs[i].End() <= m)
    && (m == 0 || exists i | 0 <= i < |segs| :: segs[i].End() == m)
  }

  ghost predicate Reached(base: u32, limits: Limits, xs: seq<Arrival>, a: Assembly) {
    && a.base == Some(base) && a.anchored && FinIs(base, xs, a.fin)
    && a.segments == Placed(base, xs) && a.retained == TotalBytes(a.segments)
    && a.min == 0 <= a.max <= limits.maxStreamSpan && Highest(a.segments, a.max)
  }

  lemma {:induction false} TotalSnoc(segs: seq<Segment>, more: seq<Segment>)
    requires |more| <= 1
    ensures TotalBytes(segs + more) == TotalBytes(segs) + if more == [] then 0 else |more[0].bytes.data|
  {
    if more == [] {
      assert segs + more == segs;
    } else {
      assert (segs + more)[..|segs|] == segs;
    }
  }

  /** A run after a SYN succeeds exactly when its pushes and FINs are acceptable as a whole. */
  lemma {:induction false} RunAccepts(syn: u32, limits: Limits, xs: seq<Arrival>)
    requires limits.Valid()
    ensures var base := Wrap32(syn + 1);
            var r := TakeAll(NewAssembly(Some(syn)), limits, xs);
            && (r.Ok? <==> Acceptable(base, limits, xs))
            && (r.Ok? ==> Reached(base, limits, xs, r.value))
  {
    hide Valid, SequenceDelta, Take, Placeable, Reached, FinsAgree, Place;
    var base := Wrap32(syn + 1);
    if xs == [] {
      RunBegins(syn, limits);
    } else {
      var init, last := xs[..|xs| - 1], xs[|xs| - 1];
      assert xs == init + [last];
      RunAccepts(syn, limits, init);
      AcceptableSnoc(base, limits, init, last);
      var before := TakeAll(NewAssembly(Some(syn)), limits, init);
      if before.Ok? {
        ReachedSegments(base, limits, init, before.value);
        if last.Payload? {
          PushOneAccepts(base, limits, init, last, before.value);
        } else {
          FinOneAccepts(base, limits, init, last, before.value);
        }
      }
    }
  }

  lemma {:induction false} RunBegins(syn: u32, limits: Limits)
    ensures Acceptable(Wrap32(syn + 1), limits, []) && Reached(Wrap32(syn + 1), limits, [], NewAssembly(Some(syn)))
  {
  }

  lemma {:induction false} ReachedSegments(base: u32, limits: Limits, xs: seq<Arrival>, a: Assembly)
    requires Reached(base, limits, xs, a)
    ensures a.segments == Placed(base, xs)
  {
  }

  /** The new FIN agrees with those before it. */
  ghost predicate FinFits(base: u32, init: seq<Arrival>, last: Arrival) {
    last.Fin? ==> forall x | x in init && x.Fin? :: SequenceDelta(x.sequence, base) == SequenceDelta(last.sequence, base)
  }

  lemma {:induction false} FinsSnoc(base: u32, init: seq<Arrival>, last: Arrival)
    ensures FinsAgree(base, init + [last]) <==> FinsAgree(base, init) && FinFits(base, init, last)
  {
    hide SequenceDelta;
    assert forall x :: x in init + [last] <==> x in init || x == last;
  }

  lemma {:induction false} AcceptableSnoc(base: u32, limits: Limits, init: seq<Arrival>, last: Arrival)
    ensures Placed(base, init + [last]) == Placed(base, init) + Place(base, last)
    ensures Acceptable(base, limits, init + [last]) <==>
              Acceptable(base, limits, init) && Placeable(base, limits, last) && FinFits(base, init, last)
              && TotalBytes(Placed(base, init) + Place(base, last)) <= limits.maxRetainedPayload
              && |Placed(base, init) + Place(base, last)| <= limits.maxSegmentsPerFlow
  {
    hide Placeable, FinsAgree, FinFits, SequenceDelta;
    assert (init + [last])[..|init|] == init;
    FinsSnoc(base, init, last);
    TotalSnoc(Placed(base, init), Place(base, last));
    assert forall x :: x in init + [last] <==> x in init || x == last;
  }

  lemma {:induction false} FinKept(base: u32, init: seq<Arrival>, last: Arrival, fin: Option<int>)
    requires FinIs(base, init, fin) && last.Payload?
    ensures FinIs(base, init + [last], fin)
  {
    hide SequenceDelta;
    assert forall x :: x in init + [last] <==> x in init || x == last;
  }

  lemma {:induction false} HighestSnoc(segs: seq<Segment>, m: int, s: Segment)
    requires Highest(segs, m)
    ensures Highest(segs + [s], Max(m, s.End()))
  {
    var more, top := segs + [s], Max(m, s.End());
    if top != 0 && top == m && exists i | 0 <= i < |segs| :: segs[i].End() == m {
      var i :| 0 <= i < |segs| && segs[i].End() == m;
      assert more[i].End() == m;
    } else if top != 0 {
      assert more[|segs|].End() == s.End();
    }
  }

  lemma {:induction false} PushOneAccepts(base: u32, limits: Limits, init: seq<Arrival>, last: Arrival, a: Assembly)
    requires limits.Valid() && Reached(base, limits, init, a) && last.Payload?
    requires TotalBytes(a.segments) <= limits.maxRetainedPayload && |a.segments| <= limits.maxSegmentsPerFlow
    ensures var r := Take(a, limits, last);
            && (r.Ok? <==>
                  Placeable(base, limits, last)
                  && TotalBytes(a.segments + Place(base, last)) <= limits.maxRetainedPayload
                  && |a.segments + Place(base, last)| <= limits.maxSegmentsPerFlow)
            && (r.Ok? ==> Reached(base, limits, init + [last], r.value)) && FinFits(base, init, last)
  {
    hide Valid, SequenceDelta, TotalBytes, Placed, Acceptable, FinIs, Highest;
    TotalSnoc(a.segments, Place(base, last));
    AcceptableSnoc(base, limits, init, last);
    FinKept(base, init, last, a.fin);
    assert a.segments + [] == a.segments;
    if last.bytes.data != [] && SequenceDelta(last.sequence, base).Ok? {
      var start := SequenceDelta(last.sequence, base).value;
      assert Place(base, last) == [Segment(start, last.bytes)];
      HighestSnoc(a.segments, a.max, Segment(start, last.bytes));
    }
  }

  lemma {:induction false} FinOneAccepts(base: u32, limits: Limits, init: seq<Arrival>, last: Arrival, a: Assembly)
    requires limits.Valid() && Reached(base, limits, init, a) && last.Fin?
    requires TotalBytes(a.segments) <= limits.maxRetainedPayload && |a.segments| <= limits.maxSegmentsPerFlow
    ensures var r := Take(a, limits, last);
            && (r.Ok? <==> Placeable(base, limits, last) && FinFits(base, init, last))
            && (r.Ok? ==> Reached(base, limits, init + [last], r.value))
            && a.segments + Place(base, last) == a.segments
  {
    hide Valid, SequenceDelta, TotalBytes, Placed, Highest;
    assert Place(base, last) == [];
    assert a.segments + [] == a.segments;
    AcceptableSnoc(base, limits, init, last);
    assert forall x :: x in init + [last] <==> x in init || x == last;
    if a.fin.Some? {
      var x :| x in init && x.Fin?;
    }
  }

  // ---------------------------------------------------------------- permutations

  lemma {:induction false} PlacedWithout(base: u32, xs: seq<Arrival>, j: int)
    requires 0 <= j < |xs|
    ensures multiset(Placed(base, xs)) == multiset(Placed(base, xs[..j] + xs[j + 1..])) + multiset(Place(base, xs[j]))
  {
    hide Place;
    var rest := xs[..j] + xs[j + 1..];
    if j == |xs| - 1 {
      assert rest == xs[..j];
    } else {
      var init := xs[..|xs| - 1];
      PlacedWithout(base, init, j);
      assert rest[..|rest| - 1] == init[..j] + init[j + 1..];
    }
  }

  lemma {:induction false} PlacedPermuted(base: u32, xs: seq<Arrival>, ys: seq<Arrival>)
    requires multiset(xs) == multiset(ys)
    ensures multiset(Placed(base, xs)) == multiset(Placed(base, ys))
  {
    hide Place;
    assert |multiset(xs)| == |xs| && |multiset(ys)| == |ys|;
    if xs != [] {
      var init, last := xs[..|xs| - 1], xs[|xs| - 1];
      assert xs == init + [last];
      assert last in multiset(ys);
      var j :| 0 <= j < |ys| && ys[j] == last;
      var rest := ys[..j] + ys[j + 1..];
      assert ys == ys[..j] + [last] + ys[j + 1..];
      assert multiset(init) == multiset(xs) - multiset{last};
      assert multiset(rest) == multiset(ys) - multiset{last};
      PlacedPermuted(base, init, rest);
      PlacedWithout(base, ys, j);
    }
  }

  lemma {:induction false} AcceptablePermuted(base: u32, limits: Limits, xs: seq<Arrival>, ys: seq<Arrival>)
    requires multiset(xs) == multiset(ys) && Acceptable(base, limits, xs)
    ensures Acceptable(base, limits, ys)
  {
    hide Placeable, Placed, TotalBytes, SequenceDelta;
    PlacedPermuted(base, xs, ys);
    TotalPermuted(Placed(base, xs), Placed(base, ys));
    assert |multiset(Placed(base, xs))| == |Placed(base, xs)|;
    assert |multiset(Placed(base, ys))| == |Placed(base, ys)|;
    forall y | y in ys ensures y in xs {
      assert y in multiset(ys);
    }
  }

  lemma {:induction false} SameBoundaries(a: Assembly, b: Assembly)
    requires Permuted(a.segments, b.segments) && a.anchored == b.anchored && a.fin == b.fin
    ensures BoundariesOf(a) == BoundariesOf(b)
  {
    hide Sorted, Cuts, Permuted;
    PermutedSymmetric(a.segments, b.segments);
    CutsIncluded(a, b);
    CutsIncluded(b, a);
    assert Cuts(a.segments, a.anchored, a.fin) == Cuts(b.segments, b.anchored, b.fin);
  }

  lemma {:induction false} CutsIncluded(a: Assembly, b: Assembly)
    requires Permuted(a.segments, b.segments) && a.anchored == b.anchored && a.fin == b.fin
    ensures Cuts(a.segments, a.anchored, a.fin) <= Cuts(b.segments, b.anchored, b.fin)
  {
    hide Permuted;
    forall i | 0 <= i < |a.segments|
      ensures a.segments[i].start in Cuts(b.segments, b.anchored, b.fin)
      ensures a.segments[i].End() in Cuts(b.segments, b.anchored, b.fin)
    {
      var j := PermutedIndex(a.segments, b.segments, i);
    }
  }

  /** The rebuilt streams agree in everything a reader of bytes can see. */
  ghost predicate SameStream(r: StreamResult, s: StreamResult) {
    && r.base == s.base && r.anchored == s.anchored
    && SameBytes(r.chunks, s.chunks) && r.gaps == s.gaps && r.conflicts == s.conflicts
    && (r.conflicts == [] ==> r.duplicates == s.duplicates)
  }

  lemma {:induction false} FinishPermuted(a: Assembly, b: Assembly, limits: Limits)
    requires Sound(a, limits) && Sound(b, limits) && limits.Valid()
    requires Permuted(a.segments, b.segments)
    requires a.base == b.base && a.anchored == b.anchored && a.fin == b.fin && (a.fin.Some? ==> a.max == b.max)
    ensures var r, s := FinishSpec(a, limits, RejectConflict), FinishSpec(b, limits, RejectConflict);
            (r.Ok? <==> s.Ok?) && (r.Ok? ==> SameStream(r.value, s.value))
  {
    hide ChunksTo, GapsTo, ConflictsTo, DuplicatesTo, SameBytes, BoundariesOf, Sound, WellFormed, Bounded;
    assert |multiset(a.segments)| == |a.segments| && |multiset(b.segments)| == |b.segments|;
    SameBoundaries(a, b);
    if a.segments == [] {
      assert SameBytes([], []) by {
        NothingSame();
      }
    } else {
      var bs := BoundariesOf(a);
      CutsBound(a, limits);
      CutsBound(b, limits);
      OrderIrrelevant(a.segments, b.segments, bs, |bs| - 1);
      if ConflictsTo(a.segments, RejectConflict, bs, |bs| - 1) == [] {
        DuplicatesPermuted(a.segments, b.segments, bs);
      }
    }
  }

  lemma {:induction false} NothingSame()
    ensures SameBytes([], [])
  {
  }

  lemma {:induction false} RunSound(a: Assembly, limits: Limits, xs: seq<Arrival>)
    requires Sound(a, limits) && TakeAll(a, limits, xs).Ok?
    ensures Sound(TakeAll(a, limits, xs).value, limits)
  {
    hide Sound, PushSpec, EndSpec;
    if xs != [] {
      RunSound(a, limits, xs[..|xs| - 1]);
      var before, last := TakeAll(a, limits, xs[..|xs| - 1]).value, xs[|xs| - 1];
      if last.Payload? {
        PushSound(before, limits, last.sequence, last.bytes);
      } else {
        EndSound(before, limits, last.sequence);
      }
    }
  }

  lemma {:induction false} HighestPermuted(segs: seq<Segment>, other: seq<Segment>, m: int, n: int)
    requires multiset(segs) == multiset(other) && Highest(segs, m) && Highest(other, n)
    ensures n <= m
  {
    if n != 0 {
      var j :| 0 <= j < |other| && other[j].End() == n;
      assert other[j] in multiset(segs);
    }
  }

  lemma {:induction false} FinPermuted(base: u32, xs: seq<Arrival>, ys: seq<Arrival>, f: Option<int>, g: Option<int>)
    requires multiset(xs) == multiset(ys) && FinIs(base, xs, f) && FinIs(base, ys, g)
    ensures f == g
  {
    hide SequenceDelta;
    forall x ensures x in xs <==> x in ys {
      assert x in xs <==> x in multiset(xs);
      assert x in ys <==> x in multiset(ys);
    }
    if f.Some? {
      var x :| x in xs && x.Fin?;
    }
  }

  lemma {:induction false} ReachedAlike(base: u32, limits: Limits, xs: seq<Arrival>, ys: seq<Arrival>, a: Assembly, b: Assembly)
    requires multiset(xs) == multiset(ys) && Reached(base, limits, xs, a) && Reached(base, limits, ys, b)
    ensures Permuted(a.segments, b.segments) && a.base == b.base && a.anchored == b.anchored && a.fin == b.fin && a.max == b.max
  {
    hide FinIs, Highest, Placed, TotalBytes;
    PlacedPermuted(base, xs, ys);
    FinPermuted(base, xs, ys, a.fin, b.fin);
    HighestPermuted(a.segments, b.segments, a.max, b.max);
    HighestPermuted(b.segments, a.segments, b.max, a.max);
  }

  /**
   After a SYN, every reordering of an accepted run of pushes and FINs is accepted, finishes exactly
   when the original does, and rebuilds the same stream.
   */
  lemma {:induction false} ArrivalOrderIrrelevant(syn: u32, limits: Limits, xs: seq<Arrival>, ys: seq<Arrival>)
    requires limits.Valid() && multiset(xs) == multiset(ys)
    requires TakeAll(NewAssembly(Some(syn)), limits, xs).Ok?
    ensures TakeAll(NewAssembly(Some(syn)), limits, ys).Ok?
    ensures var r := FinishSpec(TakeAll(NewAssembly(Some(syn)), limits, xs).value, limits, RejectConflict);
            var s := FinishSpec(TakeAll(NewAssembly(Some(syn)), limits, ys).value, limits, RejectConflict);
            (r.Ok? <==> s.Ok?) && (r.Ok? ==> SameStream(r.value, s.value))
  {
    hide TakeAll, FinishSpec, Acceptable, SameStream, Reached;
    var base, empty := Wrap32(syn + 1), NewAssembly(Some(syn));
    RunAccepts(syn, limits, xs);
    AcceptablePermuted(base, limits, xs, ys);
    RunAccepts(syn, limits, ys);
    var a, b := TakeAll(empty, limits, xs).value, TakeAll(empty, limits, ys).value;
    NewSound(syn, limits);
    RunSound(empty, limits, xs);
    RunSound(empty, limits, ys);
    ReachedAlike(base, limits, xs, ys, a, b);
    FinishPermuted(a, b, limits);
  }

  lemma {:induction false} NewSound(syn: u32, limits: Limits)
    ensures Sound(NewAssembly(Some(syn)), limits)
  {
  }
}
