/** Pages of generation identifiers, found by jumping from one generation's rows to the next. */
module GenerationPages {
  import opened Common
  import opened Codec
  import opened HistoryModel
  import opened RowIndex
  import opened RowSearch
  import Lexicographic

  predicate Behind(after: Option<Digest>, g: Digest) {
    after.None? || Lexicographic.Less(after.value, g)
  }

  /** The jump target behind every row of a generation. */
  lemma {:induction false} JumpSplits(r: Row, g: Digest)
    requires RowOk(r)
    ensures Lexicographic.Less(Place(r), PlaceOrder(g, 1, I64_MAX)) <==> !Lexicographic.Less(g, r.generation)
  {
    hide Lexicographic.Less, PlaceOrder;
    PlaceLess(r.generation, r.direction, r.start, g, 1, I64_MAX);
    Lexicographic.Total(r.generation, g);
    Lexicographic.Irreflexive(g);
    if Lexicographic.Less(r.generation, g) {
      Lexicographic.Asymmetric(r.generation, g);
    }
  }

  /** The first row whose generation is behind g. */
  method JumpBehind(rows: seq<Row>, g: Digest) returns (at: nat)
    requires GoodIndex(rows)
    ensures at <= |rows|
    ensures forall i | 0 <= i < at :: !Lexicographic.Less(g, rows[i].generation)
    ensures forall i | at <= i < |rows| :: Lexicographic.Less(g, rows[i].generation)
  {
    hide Lexicographic.Less, PlaceOrder, SortedRows, Place, RowOk;
    at := LowerBound(rows, g, 1, I64_MAX);
    forall i | 0 <= i < |rows| ensures i < at <==> !Lexicographic.Less(g, rows[i].generation) {
      JumpSplits(rows[i], g);
    }
  }

  ghost predicate Climbing(out: seq<Digest>) {
    forall i, j | 0 <= i < j < |out| :: Lexicographic.Less(out[i], out[j])
  }

  /** Every generation in the page is one of the index, behind the cursor. */
  ghost predicate Listed(rows: seq<Row>, after: Option<Digest>, out: seq<Digest>) {
    forall k | 0 <= k < |out| :: Behind(after, out[k]) && exists i | 0 <= i < |rows| :: rows[i].generation == out[k]
  }

  /** The rows below `at` are listed or not behind the cursor; those from `at` on are behind everything listed. */
  ghost predicate SplitAt(rows: seq<Row>, after: Option<Digest>, out: seq<Digest>, at: nat) {
    && at <= |rows|
    && (forall i | 0 <= i < at && Behind(after, rows[i].generation) :: rows[i].generation in out)
    && (forall i | at <= i < |rows| :: Behind(after, rows[i].generation))
    && (forall i, k | at <= i < |rows| && 0 <= k < |out| :: Lexicographic.Less(out[k], rows[i].generation))
  }

  /** A page holds, in ascending order and once each, the first generations behind the cursor. */
  method Generations(rows: seq<Row>, after: Option<Digest>, limit: nat, c: Config) returns (r: Result<seq<Digest>>)
    requires GoodIndex(rows)
    ensures r.Ok? ==>
              && Climbing(r.value) && Listed(rows, after, r.value) && |r.value| <= limit
              && (forall i | 0 <= i < |rows| && Behind(after, rows[i].generation) ::
                    rows[i].generation in r.value
                    || (|r.value| == limit && forall k | 0 <= k < limit :: Lexicographic.Less(r.value[k], rows[i].generation)))
    ensures r.Err? ==> !(1 <= limit <= 200) || limit > c.maxQueryIntervals
  {
    hide Lexicographic.Less, SortedRows, RowOk, Behind, Climbing, Listed, SplitAt;
    if !(1 <= limit <= 200) {
      return Err(Limit("generation_page"));
    }
    var at := 0;
    if after.Some? {
      at := JumpBehind(rows, after.value);
    }
    PageBegins(rows, after, at);
    var out: seq<Digest> := [];
    var seen := 0;
    while at < |rows| && |out| < limit
      invariant at <= |rows| && |out| <= limit && seen == |out|
      invariant Climbing(out) && Listed(rows, after, out) && SplitAt(rows, after, out, at)
      decreases |rows| - at
    {
      var row := rows[at];
      seen := seen + 1;
      if seen > c.maxQueryIntervals {
        return Err(Limit("generation_scan"));
      }
      // The row is behind the cursor and begins a new generation, so neither is checked again.
      var jump := JumpBehind(rows, row.generation);
      Lexicographic.Irreflexive(row.generation);
      PageStep(rows, after, out, at, jump);
      out := out + [row.generation];
      at := jump;
    }
    PageEnds(rows, after, out, at, limit);
    r := Ok(out);
  }

  lemma {:induction false} PageBegins(rows: seq<Row>, after: Option<Digest>, at: nat)
    requires at <= |rows|
    requires after.None? ==> at == 0
    requires after.Some? ==> forall i | 0 <= i < at :: !Lexicographic.Less(after.value, rows[i].generation)
    requires after.Some? ==> forall i | at <= i < |rows| :: Lexicographic.Less(after.value, rows[i].generation)
    ensures Climbing([]) && Listed(rows, after, []) && SplitAt(rows, after, [], at)
  {
    hide Lexicographic.Less;
  }

  lemma {:induction false} PageStep(rows: seq<Row>, after: Option<Digest>, out: seq<Digest>, at: nat, jump: nat)
    requires Climbing(out) && Listed(rows, after, out) && SplitAt(rows, after, out, at) && at < |rows| && jump <= |rows|
    requires GoodIndex(rows)
    requires forall i | 0 <= i < jump :: !Lexicographic.Less(rows[at].generation, rows[i].generation)
    requires forall i | jump <= i < |rows| :: Lexicographic.Less(rows[at].generation, rows[i].generation)
    ensures at < jump
    ensures Climbing(out + [rows[at].generation]) && Listed(rows, after, out + [rows[at].generation])
    ensures SplitAt(rows, after, out + [rows[at].generation], jump)
  {
    hide Lexicographic.Less, SortedRows, RowOk, Behind;
    var g, more := rows[at].generation, out + [rows[at].generation];
    Lexicographic.Irreflexive(g);
    forall i | 0 <= i < jump && Behind(after, rows[i].generation) ensures rows[i].generation in more {
      if at <= i {
        PlacesGenerations(rows, at, i);
        Lexicographic.Total(g, rows[i].generation);
      }
    }
    forall k | 0 <= k < |more|
      ensures Behind(after, more[k]) && exists i | 0 <= i < |rows| :: rows[i].generation == more[k]
    {
      if k < |out| {
        assert more[k] == out[k];
      } else {
        assert rows[at].generation == more[k];
      }
    }
  }

  lemma {:induction false} PlacesGenerations(rows: seq<Row>, i: int, j: int)
    requires GoodIndex(rows) && 0 <= i <= j < |rows|
    ensures !Lexicographic.Less(rows[j].generation, rows[i].generation)
  {
    hide Lexicographic.Less, PlaceOrder, SortedRows, RowOk;
    PlacesSorted(rows, i, j);
    var a, b := rows[i], rows[j];
    PlaceLess(b.generation, b.direction, b.start, a.generation, a.direction, a.start);
  }

  lemma {:induction false} PageEnds(rows: seq<Row>, after: Option<Digest>, out: seq<Digest>, at: nat, limit: nat)
    requires SplitAt(rows, after, out, at) && |out| <= limit && (at >= |rows| || |out| >= limit)
    ensures forall i | 0 <= i < |rows| && Behind(after, rows[i].generation) ::
              rows[i].generation in out
              || (|out| == limit && forall k | 0 <= k < limit :: Lexicographic.Less(out[k], rows[i].generation))
  {
    hide Lexicographic.Less, Behind;
  }
}
