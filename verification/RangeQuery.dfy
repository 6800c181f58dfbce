/** Interval queries over the range index: what was observed at every position, and how certain that is. */
module RangeQuery {
  import opened Common
  import opened Codec
  import opened Boundaries
  import opened HistoryModel
  import opened RowIndex
  import opened RowSearch
  import Lexicographic

  /** A row with the payload its journal record carries. */
  datatype Observation = Observation(row: Row, payload: seq<byte>)

  /** What following a row into the journal and the source yields, with the bytes read on the way. */
  datatype Fetched = Fetched(payload: seq<byte>, body: nat, witnessed: nat)

  datatype Status = Gap | Conflicting | AmbiguousPlacement | Candidate

  datatype Piece = Piece(start: int, end: int, status: Status, ids: seq<nat>, bytes: Option<seq<byte>>)

  ghost predicate Sized(o: Observation) {
    RowOk(o.row) && |o.payload| == o.row.end - o.row.start
  }

  ghost predicate AllSized(obs: seq<Observation>) {
    forall i | 0 <= i < |obs| :: Sized(obs[i])
  }

  predicate Holds(o: Observation, x: int) {
    o.row.start <= x < o.row.end
  }

  ghost function ByteAt(o: Observation, x: int): byte
    requires Sized(o) && Holds(o, x)
  {
    o.payload[x - o.row.start]
  }

  predicate Spans(o: Observation, a: int, b: int) {
    o.row.start <= a && b <= o.row.end
  }

  function BytesIn(o: Observation, a: int, b: int): seq<byte> {
    if Spans(o, a, b) && a <= b && |o.payload| == o.row.end - o.row.start
    then o.payload[a - o.row.start..b - o.row.start] else []
  }

  // ---------------------------------------------------------------- one piece

  /** The first k observations that span [a, b). */
  function SpanningTo(obs: seq<Observation>, a: int, b: int, k: nat): seq<nat>
    requires k <= |obs|
  {
    if k == 0 then [] else SpanningTo(obs, a, b, k - 1) + (if Spans(obs[k - 1], a, b) then [k - 1] else [])
  }

  lemma {:induction false} SpanningIn(obs: seq<Observation>, a: int, b: int, k: nat, i: int)
    requires k <= |obs|
    ensures i in SpanningTo(obs, a, b, k) <==> 0 <= i < k && Spans(obs[i], a, b)
  {
    hide Spans;
    if k > 0 {
      SpanningIn(obs, a, b, k - 1, i);
    }
  }

  /** Some two spanning observations show different bytes. */
  ghost predicate Disagree(obs: seq<Observation>, a: int, b: int, k: nat)
    requires k <= |obs|
  {
    exists i, j | 0 <= i < k && 0 <= j < k ::
      Spans(obs[i], a, b) && Spans(obs[j], a, b) && BytesIn(obs[i], a, b) != BytesIn(obs[j], a, b)
  }

  ghost predicate Unselected(obs: seq<Observation>, a: int, b: int, k: nat)
    requires k <= |obs|
  {
    exists i | 0 <= i < k :: Spans(obs[i], a, b) && !obs[i].row.selected
  }

  /** What the loop over the observations has found in the first k of them. */
  ghost predicate Found(obs: seq<Observation>, a: int, b: int, k: nat, shown: Option<seq<byte>>, conflict: bool, uncertain: bool)
    requires k <= |obs|
  {
    && (shown.None? <==> forall i | 0 <= i < k :: !Spans(obs[i], a, b))
    && (shown.Some? ==> exists i | 0 <= i < k :: Spans(obs[i], a, b) && BytesIn(obs[i], a, b) == shown.value)
    && (shown.Some? && !conflict ==> forall i | 0 <= i < k && Spans(obs[i], a, b) :: BytesIn(obs[i], a, b) == shown.value)
    && (conflict <==> Disagree(obs, a, b, k))
    && (uncertain <==> Unselected(obs, a, b, k))
  }

  lemma {:induction false} FoundNothing(obs: seq<Observation>, a: int, b: int)
    ensures Found(obs, a, b, 0, None, false, false)
  {
  }

  lemma {:induction false} FoundSkip(obs: seq<Observation>, a: int, b: int, k: nat, shown: Option<seq<byte>>, conflict: bool, uncertain: bool)
    requires k < |obs| && Found(obs, a, b, k, shown, conflict, uncertain) && !Spans(obs[k], a, b)
    ensures Found(obs, a, b, k + 1, shown, conflict, uncertain)
  {
    hide Spans, BytesIn;
    assert Disagree(obs, a, b, k + 1) ==> Disagree(obs, a, b, k);
    assert Unselected(obs, a, b, k + 1) ==> Unselected(obs, a, b, k);
  }

  lemma {:induction false} DisagreeMore(obs: seq<Observation>, a: int, b: int, k: nat, i: int)
    requires k < |obs| && Spans(obs[k], a, b)
    ensures Disagree(obs, a, b, k) ==> Disagree(obs, a, b, k + 1)
    ensures 0 <= i < k && Spans(obs[i], a, b) && BytesIn(obs[i], a, b) != BytesIn(obs[k], a, b) ==> Disagree(obs, a, b, k + 1)
  {
    hide Spans, BytesIn;
  }

  lemma {:induction false} DisagreeFresh(obs: seq<Observation>, a: int, b: int, k: nat, v: seq<byte>)
    requires k < |obs| && Spans(obs[k], a, b) && BytesIn(obs[k], a, b) == v
    requires forall i | 0 <= i < k && Spans(obs[i], a, b) :: BytesIn(obs[i], a, b) == v
    ensures !Disagree(obs, a, b, k + 1)
  {
    hide Spans, BytesIn;
  }

  lemma {:induction false} UnselectedStep(obs: seq<Observation>, a: int, b: int, k: nat)
    requires k < |obs| && Spans(obs[k], a, b)
    ensures Unselected(obs, a, b, k + 1) <==> Unselected(obs, a, b, k) || !obs[k].row.selected
  {
    hide Spans;
  }

  lemma {:induction false} FoundStep(obs: seq<Observation>, a: int, b: int, k: nat, shown: Option<seq<byte>>, conflict: bool, uncertain: bool)
    requires k < |obs| && Found(obs, a, b, k, shown, conflict, uncertain) && Spans(obs[k], a, b)
    ensures var raw := BytesIn(obs[k], a, b);
            Found(obs, a, b, k + 1, if shown.Some? then shown else Some(raw),
                  conflict || (shown.Some? && shown.value != raw), uncertain || !obs[k].row.selected)
  {
    hide Spans, BytesIn, Disagree, Unselected;
    var raw := BytesIn(obs[k], a, b);
    UnselectedStep(obs, a, b, k);
    DisagreeMore(obs, a, b, k, k);
    if shown.Some? {
      var i :| 0 <= i < k && Spans(obs[i], a, b) && BytesIn(obs[i], a, b) == shown.value;
      DisagreeMore(obs, a, b, k, i);
      if !conflict && shown.value == raw {
        DisagreeFresh(obs, a, b, k, raw);
      }
    } else {
      DisagreeFresh(obs, a, b, k, raw);
      NothingDisagrees(obs, a, b, k);
    }
  }

  lemma {:induction false} NothingDisagrees(obs: seq<Observation>, a: int, b: int, k: nat)
    requires k <= |obs| && forall i | 0 <= i < k :: !Spans(obs[i], a, b)
    ensures !Disagree(obs, a, b, k)
  {
    hide Spans, BytesIn;
  }

  function StatusOf(shown: Option<seq<byte>>, conflict: bool, uncertain: bool): Status {
    if shown.None? then Gap else if conflict then Conflicting else if uncertain then AmbiguousPlacement else Candidate
  }

  /** A piece that reports exactly what its observations show. */
  ghost predicate Reports(obs: seq<Observation>, p: Piece) {
    && p.ids == SpanningTo(obs, p.start, p.end, |obs|)
    && (p.status == Gap <==> forall i | 0 <= i < |obs| :: !Spans(obs[i], p.start, p.end))
    && (p.status == Conflicting <==> Disagree(obs, p.start, p.end, |obs|))
    && (p.status == AmbiguousPlacement <==> !Disagree(obs, p.start, p.end, |obs|) && Unselected(obs, p.start, p.end, |obs|))
    && (p.bytes.Some? <==> p.status == Candidate)
    && (p.bytes.Some? ==> forall i | 0 <= i < |obs| && Spans(obs[i], p.start, p.end) ::
          BytesIn(obs[i], p.start, p.end) == p.bytes.value)
  }

  lemma {:induction false} FoundReports(obs: seq<Observation>, a: int, b: int, shown: Option<seq<byte>>, conflict: bool, uncertain: bool)
    requires Found(obs, a, b, |obs|, shown, conflict, uncertain)
    ensures Reports(obs, Piece(a, b, StatusOf(shown, conflict, uncertain), SpanningTo(obs, a, b, |obs|),
                               if conflict || uncertain then None else shown))
  {
    hide Spans, BytesIn, SpanningTo;
    if shown.None? {
      NothingDisagrees(obs, a, b, |obs|);
    }
  }

  /** Compare the observations that span [a, b). */
  method Compare(obs: seq<Observation>, a: int, b: int, c: Config, work: nat, references: nat)
    returns (r: Result<Piece>, spent: nat, referred: nat)
    ensures r.Ok? ==> Reports(obs, r.value) && r.value.start == a && r.value.end == b
    ensures r.Err? ==> r.error.code == LimitExceeded
    ensures spent <= work + |obs| + ComparedTo(obs, a, b, |obs|) && referred <= references + |obs|
    ensures work + |obs| + ComparedTo(obs, a, b, |obs|) <= c.maxQueryWork && references + |obs| <= c.maxQueryIntervals * 4 ==> r.Ok?
  {
    hide Found, Spans, BytesIn, SpanningTo, ComparedTo;
    var shown: Option<seq<byte>> := None;
    var conflict, uncertain := false, false;
    var ids: seq<nat> := [];
    spent, referred := work, references;
    FoundNothing(obs, a, b);
    SpanningNone(obs, a, b);
    ComparedGrows(obs, a, b, 0, |obs|);
    for k := 0 to |obs|
      invariant Found(obs, a, b, k, shown, conflict, uncertain) && ids == SpanningTo(obs, a, b, k)
      invariant spent <= work + k + ComparedTo(obs, a, b, k) && referred <= references + k
    {
      SpanningStep(obs, a, b, k);
      ComparedStep(obs, a, b, k);
      ComparedGrows(obs, a, b, k + 1, |obs|);
      spent := spent + 1;
      if spent > c.maxQueryWork {
        return Err(Limit("query_work")), spent, referred;
      }
      if Spans(obs[k], a, b) {
        var raw := BytesIn(obs[k], a, b);
        FoundStep(obs, a, b, k, shown, conflict, uncertain);
        spent := spent + |raw|;
        if spent > c.maxQueryWork {
          return Err(Limit("query_work")), spent, referred;
        }
        if shown.Some? && shown.value != raw {
          conflict := true;
        }
        if shown.None? {
          shown := Some(raw);
        }
        if !obs[k].row.selected {
          uncertain := true;
        }
        referred := referred + 1;
        if referred > c.maxQueryIntervals * 4 {
          return Err(Limit("query_evidence_references")), spent, referred;
        }
        ids := ids + [k];
      } else {
        FoundSkip(obs, a, b, k, shown, conflict, uncertain);
      }
    }
    FoundReports(obs, a, b, shown, conflict, uncertain);
    r := Ok(Piece(a, b, StatusOf(shown, conflict, uncertain), ids, if conflict || uncertain then None else shown));
  }

  lemma {:induction false} SpanningNone(obs: seq<Observation>, a: int, b: int)
    ensures SpanningTo(obs, a, b, 0) == []
  {
  }

  lemma {:induction false} SpanningStep(obs: seq<Observation>, a: int, b: int, k: nat)
    requires k < |obs|
    ensures SpanningTo(obs, a, b, k + 1) == SpanningTo(obs, a, b, k) + if Spans(obs[k], a, b) then [k] else []
  {
  }

  /** The bytes compared for [a, b) in the first k observations. */
  function ComparedTo(obs: seq<Observation>, a: int, b: int, k: nat): nat
    requires k <= |obs|
  {
    if k == 0 then 0 else ComparedTo(obs, a, b, k - 1) + if Spans(obs[k - 1], a, b) then |BytesIn(obs[k - 1], a, b)| else 0
  }

  lemma {:induction false} ComparedStep(obs: seq<Observation>, a: int, b: int, k: nat)
    requires k < |obs|
    ensures ComparedTo(obs, a, b, k + 1) == ComparedTo(obs, a, b, k) + if Spans(obs[k], a, b) then |BytesIn(obs[k], a, b)| else 0
  {
    hide Spans, BytesIn;
  }

  lemma {:induction false} ComparedGrows(obs: seq<Observation>, a: int, b: int, j: nat, k: nat)
    requires j <= k <= |obs|
    ensures ComparedTo(obs, a, b, j) <= ComparedTo(obs, a, b, k)
  {
    hide Spans, BytesIn;
    if j < k {
      ComparedGrows(obs, a, b, j, k - 1);
    }
  }

  // ---------------------------------------------------------------- what a query costs

  /** The rows a scan for the window has to read past or keep. */
  predicate Near(r: Row, w: Window) {
    r.generation == w.generation && r.direction == w.direction && ScanFrom(w) <= r.start < w.end
  }

  function NearTo(rows: seq<Row>, w: Window, k: nat): nat
    requires k <= |rows|
  {
    if k == 0 then 0 else NearTo(rows, w, k - 1) + if Near(rows[k - 1], w) then 1 else 0
  }

  /** The bytes of journal and capture behind the overlapping rows. */
  function ReadTo(rows: seq<Row>, w: Window, fetch: Row -> Result<Fetched>, k: nat): nat
    requires k <= |rows|
  {
    if k == 0 then 0
    else ReadTo(rows, w, fetch, k - 1)
         + if Overlaps(rows[k - 1], w) && fetch(rows[k - 1]).Ok?
           then fetch(rows[k - 1]).value.body + fetch(rows[k - 1]).value.witnessed else 0
  }

  lemma {:induction false} CostStep(rows: seq<Row>, w: Window, fetch: Row -> Result<Fetched>, k: nat)
    requires k < |rows|
    ensures NearTo(rows, w, k + 1) == NearTo(rows, w, k) + if Near(rows[k], w) then 1 else 0
    ensures ReadTo(rows, w, fetch, k + 1) == ReadTo(rows, w, fetch, k)
              + if Overlaps(rows[k], w) && fetch(rows[k]).Ok? then fetch(rows[k]).value.body + fetch(rows[k]).value.witnessed else 0
  {
    hide Near, Overlaps;
  }

  lemma {:induction false} CostGrows(rows: seq<Row>, w: Window, fetch: Row -> Result<Fetched>, j: nat, k: nat)
    requires j <= k <= |rows|
    ensures NearTo(rows, w, j) <= NearTo(rows, w, k) && ReadTo(rows, w, fetch, j) <= ReadTo(rows, w, fetch, k)
  {
    hide Near, Overlaps;
    if j < k {
      CostGrows(rows, w, fetch, j, k - 1);
    }
  }

  /** A row the scan neither starts behind nor stops at is near. */
  lemma {:induction false} ReadIsNear(r: Row, w: Window)
    requires !Stops(r, w) && !Lexicographic.Less(Place(r), PlaceOrder(w.generation, w.direction, ScanFrom(w)))
    ensures Near(r, w)
  {
    hide Lexicographic.Less, PlaceOrder;
    PlaceLess(r.generation, r.direction, r.start, w.generation, w.direction, ScanFrom(w));
  }

  /** What the scan may cost: an entry for every near row and the one it stops at, and what stands behind the rows. */
  ghost function ScanCost(rows: seq<Row>, w: Window, fetch: Row -> Result<Fetched>): nat {
    WIDTH * (NearTo(rows, w, |rows|) + 1) + ReadTo(rows, w, fetch, |rows|)
  }

  // ---------------------------------------------------------------- the scan

  function RowsIn(obs: seq<Observation>): (rows: seq<Row>)
    ensures |rows| == |obs| && forall i | 0 <= i < |obs| :: rows[i] == obs[i].row
  {
    seq(|obs|, i requires 0 <= i < |obs| => obs[i].row)
  }

  predicate Follows(r: Row, fetch: Row -> Result<Fetched>) {
    fetch(r).Ok? && |fetch(r).value.payload| == r.end - r.start
  }

  /** The journal cannot back some row that the query needs. */
  ghost predicate Unbacked(rows: seq<Row>, w: Window, fetch: Row -> Result<Fetched>) {
    exists i | 0 <= i < |rows| :: Overlaps(rows[i], w) && !Follows(rows[i], fetch)
  }

  ghost predicate Fetches(obs: seq<Observation>, fetch: Row -> Result<Fetched>) {
    forall i | 0 <= i < |obs| :: Follows(obs[i].row, fetch) && obs[i].payload == fetch(obs[i].row).value.payload && Sized(obs[i])
  }

  lemma {:induction false} OverlappingStep(rows: seq<Row>, w: Window, k: nat)
    requires k < |rows|
    ensures Overlapping(rows, w, k + 1) == Overlapping(rows, w, k) + if Overlaps(rows[k], w) then [rows[k]] else []
  {
  }

  lemma {:induction false} RowsInSnoc(obs: seq<Observation>, o: Observation)
    ensures RowsIn(obs + [o]) == RowsIn(obs) + [o.row]
  {
  }

  lemma {:induction false} NotStopped(r: Row, w: Window)
    requires !Stops(r, w)
    ensures Overlaps(r, w) <==> w.start < r.end
  {
  }

  /** Read the index from the lower bound on, keeping the rows that reach into the window. */
  method Scan(rows: seq<Row>, w: Window, c: Config, fetch: Row -> Result<Fetched>) returns (r: Result<seq<Observation>>, work: nat)
    requires GoodIndex(rows)
    ensures r.Ok? ==> RowsIn(r.value) == Overlapping(rows, w, |rows|) && Fetches(r.value, fetch)
    ensures r.Err? ==> r.error.code == LimitExceeded || Unbacked(rows, w, fetch)
    ensures r.Ok? ==> work <= ScanCost(rows, w, fetch)
    ensures NearTo(rows, w, |rows|) < c.maxQueryIntervals && ScanCost(rows, w, fetch) <= c.maxQueryWork && !Unbacked(rows, w, fetch) ==> r.Ok?
  {
    hide SortedRows, Overlapping, Overlaps, Lexicographic.Less, PlaceOrder, RowOk, RowsIn, Stops, Place, NearTo, ReadTo, Near;
    work := 0;
    var at := LowerBound(rows, w.generation, w.direction, ScanFrom(w));
    ScanBegins(rows, w, at);
    var obs: seq<Observation> := [];
    NoRowsIn();
    var scanned := 0;
    ghost var first := at;
    while at < |rows|
      invariant first <= at <= |rows| && RowsIn(obs) == Overlapping(rows, w, at) && Fetches(obs, fetch)
      invariant |obs| <= scanned <= NearTo(rows, w, at) && work <= WIDTH * scanned + ReadTo(rows, w, fetch, at)
      decreases |rows| - at
    {
      CostStep(rows, w, fetch, at);
      CostGrows(rows, w, fetch, at, |rows|);
      CostGrows(rows, w, fetch, at + 1, |rows|);
      if scanned >= c.maxQueryIntervals {
        return Err(Limit("query_scan")), work;
      }
      scanned := scanned + 1;
      work := work + WIDTH;
      if work > c.maxQueryWork {
        return Err(Limit("query_work")), work;
      }
      var row := rows[at];
      if Stops(row, w) {
        ScanEnds(rows, w, at);
        return Ok(obs), work;
      }
      NotStopped(row, w);
      ReadIsNear(row, w);
      OverlappingStep(rows, w, at);
      at := at + 1;
      if row.end <= w.start {
        continue;
      }
      if |obs| >= c.maxQueryIntervals {
        return Err(Limit("query_intervals")), work;
      }
      var record := fetch(row);
      if record.Err? {
        return Err(record.error), work;
      }
      work := work + record.value.body;
      if work > c.maxQueryWork {
        return Err(Limit("query_work")), work;
      }
      if row.end - row.start != |record.value.payload| {
        return Err(ROW_ERROR), work;
      }
      work := work + record.value.witnessed;
      if work > c.maxQueryWork {
        return Err(Limit("query_work")), work;
      }
      RowsInSnoc(obs, Observation(row, record.value.payload));
      obs := obs + [Observation(row, record.value.payload)];
    }
    r := Ok(obs);
  }

  lemma {:induction false} NoRowsIn()
    ensures RowsIn([]) == []
  {
  }

  // ---------------------------------------------------------------- the pieces

  /** Where the answer can change: the ends of the query and of every row inside it. */
  function Cuts(obs: seq<Observation>, w: Window): set<int> {
    {w.start, w.end}
    + (set i | 0 <= i < |obs| :: Max(obs[i].row.start, w.start))
    + (set i | 0 <= i < |obs| :: Min(obs[i].row.end, w.end))
  }

  ghost predicate WithinWindow(obs: seq<Observation>, w: Window) {
    w.start < w.end && forall i | 0 <= i < |obs| :: Overlaps(obs[i].row, w)
  }

  lemma {:induction false} CutsBounded(obs: seq<Observation>, w: Window, x: int)
    requires WithinWindow(obs, w) && x in Cuts(obs, w)
    ensures w.start <= x <= w.end
  {
  }

  /** The cuts in order run from the start of the window to its end. */
  lemma {:induction false} CutsSpan(obs: seq<Observation>, w: Window)
    requires WithinWindow(obs, w)
    ensures var cuts := Sorted(Cuts(obs, w));
            |cuts| >= 2 && cuts[0] == w.start && cuts[|cuts| - 1] == w.end
  {
    hide Cuts, WithinWindow, Sorted;
    var cuts := Sorted(Cuts(obs, w));
    WindowEndsCut(obs, w);
    SortedFacts(obs, w);
    forall x | x in cuts ensures w.start <= x <= w.end {
      CutsBounded(obs, w, x);
    }
    EndsOf(cuts, w.start, w.end);
  }

  /** An ascending sequence within two of its members begins and ends with them. */
  lemma {:induction false} EndsOf(s: seq<int>, lo: int, hi: int)
    requires Ascending(s) && lo in s && hi in s && lo < hi && forall x | x in s :: lo <= x <= hi
    ensures |s| >= 2 && s[0] == lo && s[|s| - 1] == hi
  {
    var i :| 0 <= i < |s| && s[i] == lo;
    var j :| 0 <= j < |s| && s[j] == hi;
    assert s[0] in s && s[|s| - 1] in s;
  }

  lemma {:induction false} WindowEndsCut(obs: seq<Observation>, w: Window)
    requires WithinWindow(obs, w)
    ensures w.start in Cuts(obs, w) && w.end in Cuts(obs, w) && w.start < w.end
  {
  }

  /** No row begins or ends inside a piece: holding one position of it is spanning it. */
  lemma {:induction false} HoldsIsSpans(obs: seq<Observation>, w: Window, k: nat, i: int, x: int)
    requires WithinWindow(obs, w) && 0 <= i < |obs| && k + 1 < |Sorted(Cuts(obs, w))|
    requires Sorted(Cuts(obs, w))[k] <= x < Sorted(Cuts(obs, w))[k + 1]
    ensures Spans(obs[i], Sorted(Cuts(obs, w))[k], Sorted(Cuts(obs, w))[k + 1]) <==> Holds(obs[i], x)
  {
    hide Sorted;
    var cuts := Sorted(Cuts(obs, w));
    SortedFacts(obs, w);
    assert cuts[k] in cuts && cuts[k + 1] in cuts;
    CutsBounded(obs, w, cuts[k]);
    CutsBounded(obs, w, cuts[k + 1]);
    var from, to := Max(obs[i].row.start, w.start), Min(obs[i].row.end, w.end);
    assert from in Cuts(obs, w) && to in Cuts(obs, w);
    NoCutInside(cuts, k, from);
    NoCutInside(cuts, k, to);
    assert Overlaps(obs[i].row, w);
  }

  lemma {:induction false} SortedFacts(obs: seq<Observation>, w: Window)
    ensures Ascending(Sorted(Cuts(obs, w))) && forall x :: x in Sorted(Cuts(obs, w)) <==> x in Cuts(obs, w)
  {
  }

  lemma {:induction false} NoCutInside(cuts: seq<int>, k: nat, x: int)
    requires Ascending(cuts) && k + 1 < |cuts| && x in cuts
    ensures x <= cuts[k] || cuts[k + 1] <= x
  {
    var j :| 0 <= j < |cuts| && cuts[j] == x;
  }

  ghost predicate Tiles(pieces: seq<Piece>, cuts: seq<int>, n: nat) {
    n < |cuts| && |pieces| == n && forall k | 0 <= k < n :: pieces[k].start == cuts[k] && pieces[k].end == cuts[k + 1]
  }

  ghost predicate AllReport(obs: seq<Observation>, pieces: seq<Piece>) {
    forall k | 0 <= k < |pieces| :: Reports(obs, pieces[k])
  }

  /** What a query answers. */
  datatype Answer = Answer(observations: seq<Observation>, pieces: seq<Piece>)

  ghost predicate Exact(rows: seq<Row>, w: Window, fetch: Row -> Result<Fetched>, a: Answer) {
    && RowsIn(a.observations) == Overlapping(rows, w, |rows|) && Fetches(a.observations, fetch)
    && Tiles(a.pieces, Sorted(Cuts(a.observations, w)), |a.pieces|) && |a.pieces| + 1 == |Sorted(Cuts(a.observations, w))|
    && AllReport(a.observations, a.pieces)
  }

  predicate Acceptable(w: Window, c: Config) {
    w.start < w.end && w.end - w.start <= I64_MAX && w.direction <= 1 && w.end - w.start <= c.maxQueryBytes
  }

  // ---------------------------------------------------------------- how many pieces, how many comparisons

  lemma {:induction false} StartsFew(obs: seq<Observation>, w: Window, k: nat)
    requires k <= |obs|
    ensures |set i | 0 <= i < k :: Max(obs[i].row.start, w.start)| <= k
  {
    if k > 0 {
      StartsFew(obs, w, k - 1);
      var x := Max(obs[k - 1].row.start, w.start);
      assert (set i | 0 <= i < k :: Max(obs[i].row.start, w.start)) == (set i | 0 <= i < k - 1 :: Max(obs[i].row.start, w.start)) + {x};
    }
  }

  lemma {:induction false} EndsFew(obs: seq<Observation>, w: Window, k: nat)
    requires k <= |obs|
    ensures |set i | 0 <= i < k :: Min(obs[i].row.end, w.end)| <= k
  {
    if k > 0 {
      EndsFew(obs, w, k - 1);
      var x := Min(obs[k - 1].row.end, w.end);
      assert (set i | 0 <= i < k :: Min(obs[i].row.end, w.end)) == (set i | 0 <= i < k - 1 :: Min(obs[i].row.end, w.end)) + {x};
    }
  }

  lemma {:induction false} CutsFew(obs: seq<Observation>, w: Window)
    ensures |Sorted(Cuts(obs, w))| <= 2 * |obs| + 2
  {
    hide Sorted;
    StartsFew(obs, w, |obs|);
    EndsFew(obs, w, |obs|);
    var a, b := set i | 0 <= i < |obs| :: Max(obs[i].row.start, w.start), set i | 0 <= i < |obs| :: Min(obs[i].row.end, w.end);
    assert |{w.start, w.end}| <= 2;
    assert |Cuts(obs, w)| <= |{w.start, w.end}| + |a| + |b|;
  }

  function Lengths(rows: seq<Row>): nat {
    if rows == [] then 0 else Lengths(rows[..|rows| - 1]) + Max(0, rows[|rows| - 1].end - rows[|rows| - 1].start)
  }

  /** What the first k observations hold of [lo, x). */
  function SweptTo(obs: seq<Observation>, lo: int, x: int, k: nat): nat
    requires k <= |obs|
  {
    if k == 0 then 0
    else SweptTo(obs, lo, x, k - 1) + Max(0, Min(obs[k - 1].row.end, x) - Max(obs[k - 1].row.start, lo))
  }

  lemma {:induction false} SweptStep(obs: seq<Observation>, lo: int, a: int, b: int, k: nat)
    requires k <= |obs| && lo <= a <= b
    ensures SweptTo(obs, lo, a, k) + ComparedTo(obs, a, b, k) <= SweptTo(obs, lo, b, k)
  {
    if k > 0 {
      SweptStep(obs, lo, a, b, k - 1);
    }
  }

  lemma {:induction false} SweptNothing(obs: seq<Observation>, lo: int, k: nat)
    requires k <= |obs|
    ensures SweptTo(obs, lo, lo, k) == 0
  {
    if k > 0 {
      SweptNothing(obs, lo, k - 1);
    }
  }

  lemma {:induction false} SweptWithin(obs: seq<Observation>, lo: int, x: int, k: nat)
    requires k <= |obs|
    ensures SweptTo(obs, lo, x, k) <= Lengths(RowsIn(obs)[..k])
  {
    if k > 0 {
      SweptWithin(obs, lo, x, k - 1);
      assert RowsIn(obs)[..k][..k - 1] == RowsIn(obs)[..k - 1];
    }
  }

  /** Every comparison of m observations in at most 2m + 1 pieces. */
  function Comparisons(m: nat): nat {
    m * (2 * m + 1)
  }

  lemma {:induction false} PiecesFew(k: nat, m: nat)
    requires k <= 2 * m + 1
    ensures k * m <= Comparisons(m)
  {
    TimesGrows(k, 2 * m + 1, m);
    assert m * (2 * m + 1) == (2 * m + 1) * m;
  }

  lemma {:induction false} TimesGrows(k: nat, n: nat, m: nat)
    requires k <= n
    ensures k * m <= n * m
  {
    if k < n {
      TimesGrows(k, n - 1, m);
      TimesNext(n - 1, m);
    }
  }

  lemma {:induction false} TimesNext(k: nat, m: nat)
    ensures (k + 1) * m == k * m + m
  {
  }

  /** Budgets that cover the scan, every comparison and every reference. */
  ghost predicate Affordable(rows: seq<Row>, w: Window, c: Config, fetch: Row -> Result<Fetched>) {
    var found := Overlapping(rows, w, |rows|);
    && NearTo(rows, w, |rows|) < c.maxQueryIntervals && Comparisons(|found|) <= c.maxQueryIntervals * 4
    && ScanCost(rows, w, fetch) + Comparisons(|found|) + Lengths(found) <= c.maxQueryWork
  }

  lemma {:induction false} PieceAffordable(rows: seq<Row>, obs: seq<Observation>, w: Window, c: Config, fetch: Row -> Result<Fetched>, cuts: seq<int>, k: nat)
    requires Affordable(rows, w, c, fetch) && RowsIn(obs) == Overlapping(rows, w, |rows|)
    requires cuts == Sorted(Cuts(obs, w)) && k + 1 < |cuts| && w.start <= cuts[k] <= cuts[k + 1]
    ensures SweptTo(obs, w.start, cuts[k], |obs|) + ComparedTo(obs, cuts[k], cuts[k + 1], |obs|) <= SweptTo(obs, w.start, cuts[k + 1], |obs|)
    ensures ScanCost(rows, w, fetch) + (k + 1) * |obs| + SweptTo(obs, w.start, cuts[k + 1], |obs|) <= c.maxQueryWork
    ensures (k + 1) * |obs| <= c.maxQueryIntervals * 4
  {
    hide Sorted, Cuts, ScanCost, NearTo, SweptTo, ComparedTo, Overlapping, Lengths, Comparisons;
    CutsFew(obs, w);
    PiecesFew(k + 1, |obs|);
    SweptStep(obs, w.start, cuts[k], cuts[k + 1], |obs|);
    SweptWithin(obs, w.start, cuts[k + 1], |obs|);
    assert RowsIn(obs)[..|obs|] == RowsIn(obs);
  }

  lemma {:induction false} CutsInOrder(obs: seq<Observation>, w: Window, k: nat)
    requires WithinWindow(obs, w) && k + 1 < |Sorted(Cuts(obs, w))|
    ensures w.start <= Sorted(Cuts(obs, w))[k] <= Sorted(Cuts(obs, w))[k + 1]
  {
    hide Sorted, Cuts;
    var cuts := Sorted(Cuts(obs, w));
    SortedFacts(obs, w);
    assert cuts[k] in cuts;
    CutsBounded(obs, w, cuts[k]);
  }

  /** The whole query. It answers whenever the request is acceptable, its rows are backed and the budgets cover it. */
  method Range(rows: seq<Row>, w: Window, c: Config, fetch: Row -> Result<Fetched>) returns (r: Result<Answer>)
    requires GoodIndex(rows)
    ensures r.Ok? ==> Acceptable(w, c) && Exact(rows, w, fetch, r.value)
    ensures r.Err? ==> r.error.code == LimitExceeded || !Acceptable(w, c) || Unbacked(rows, w, fetch)
    ensures Acceptable(w, c) && !Unbacked(rows, w, fetch) && Affordable(rows, w, c, fetch) ==> r.Ok?
  {
    hide GoodIndex, Overlapping, Fetches, RowsIn, Reports, Unbacked, Sorted, Cuts, NearTo, ScanCost, SweptTo, ComparedTo, Affordable, WithinWindow;
    ghost var affordable := Affordable(rows, w, c, fetch);
    if affordable {
      ScanAffordable(rows, w, c, fetch);
    }
    if w.end - w.start > I64_MAX || w.end <= w.start {
      return Err(Bad("query_range"));
    }
    if w.direction > 1 || w.end - w.start > c.maxQueryBytes {
      return Err(Limit("query_bytes"));
    }
    var scanned, work: nat := Scan(rows, w, c, fetch);
    if scanned.Err? {
      return Err(scanned.error);
    }
    var obs := scanned.value;
    var cuts := Sorted(Cuts(obs, w));
    ScannedWithin(rows, obs, w);
    CutsSpan(obs, w);
    var pieces: seq<Piece> := [];
    var references: nat := 0;
    SweptNothing(obs, w.start, |obs|);
    for k := 0 to |cuts| - 1
      invariant Tiles(pieces, cuts, k) && AllReport(obs, pieces)
      invariant work <= ScanCost(rows, w, fetch) + k * |obs| + SweptTo(obs, w.start, cuts[k], |obs|) || !affordable
      invariant references <= k * |obs| || !affordable
    {
      TimesNext(k, |obs|);
      CutsInOrder(obs, w, k);
      if affordable {
        PieceAffordable(rows, obs, w, c, fetch, cuts, k);
      }
      var piece: Result<Piece>;
      piece, work, references := Compare(obs, cuts[k], cuts[k + 1], c, work, references);
      if piece.Err? {
        return Err(piece.error);
      }
      pieces := pieces + [piece.value];
    }
    r := Ok(Answer(obs, pieces));
  }

  lemma {:induction false} ScanAffordable(rows: seq<Row>, w: Window, c: Config, fetch: Row -> Result<Fetched>)
    requires Affordable(rows, w, c, fetch)
    ensures NearTo(rows, w, |rows|) < c.maxQueryIntervals && ScanCost(rows, w, fetch) <= c.maxQueryWork
  {
    hide NearTo, ScanCost, Comparisons, Lengths, Overlapping;
  }

  lemma {:induction false} ScannedWithin(rows: seq<Row>, obs: seq<Observation>, w: Window)
    requires RowsIn(obs) == Overlapping(rows, w, |rows|) && w.start < w.end
    ensures WithinWindow(obs, w)
  {
    hide Overlaps, Overlapping;
    forall i | 0 <= i < |obs| ensures Overlaps(obs[i].row, w) {
      assert RowsIn(obs)[i] == obs[i].row;
      OverlappingAll(rows, w, |rows|, i);
    }
  }

  lemma {:induction false} OverlappingAll(rows: seq<Row>, w: Window, k: nat, i: int)
    requires k <= |rows| && 0 <= i < |Overlapping(rows, w, k)|
    ensures Overlaps(Overlapping(rows, w, k)[i], w)
  {
    hide Overlaps;
    if k > 0 && i < |Overlapping(rows, w, k - 1)| {
      OverlappingAll(rows, w, k - 1, i);
    }
  }

  lemma {:induction false} OverlappingHas(rows: seq<Row>, w: Window, k: nat, i: int)
    requires k <= |rows| && 0 <= i < k && Overlaps(rows[i], w)
    ensures rows[i] in Overlapping(rows, w, k)
  {
    hide Overlaps;
    if i < k - 1 {
      OverlappingHas(rows, w, k - 1, i);
    }
  }

  // ---------------------------------------------------------------- what an answer means, position by position

  /** Every position of the window lies in exactly one piece. */
  lemma {:induction false} PieceOf(rows: seq<Row>, w: Window, fetch: Row -> Result<Fetched>, a: Answer, x: int) returns (k: nat)
    requires Exact(rows, w, fetch, a) && w.start <= x < w.end
    ensures k < |a.pieces| && a.pieces[k].start <= x < a.pieces[k].end
    ensures forall j | 0 <= j < |a.pieces| && j != k :: !(a.pieces[j].start <= x < a.pieces[j].end)
  {
    hide Fetches, RowsIn, Reports, Overlapping, Sorted, Cuts;
    var cuts := Sorted(Cuts(a.observations, w));
    ScannedWithin(rows, a.observations, w);
    CutsSpan(a.observations, w);
    SortedFacts(a.observations, w);
    k := CellOf(cuts, x, |cuts| - 1);
    forall j | 0 <= j < |a.pieces| && j != k ensures !(a.pieces[j].start <= x < a.pieces[j].end) {
      assert j < k ==> cuts[j + 1] <= cuts[k];
      assert k < j ==> cuts[k + 1] <= cuts[j];
    }
  }

  /** A position is reported as a gap exactly when no row of the index holds it. */
  lemma {:induction false} GapExact(rows: seq<Row>, w: Window, fetch: Row -> Result<Fetched>, a: Answer, k: nat, x: int)
    requires Exact(rows, w, fetch, a) && w.start < w.end && k < |a.pieces| && a.pieces[k].start <= x < a.pieces[k].end
    ensures a.pieces[k].status == Gap <==> forall i | 0 <= i < |rows| :: !HoldsAt(rows[i], w, x)
    ensures forall i | 0 <= i < |a.observations| :: i in a.pieces[k].ids <==> Holds(a.observations[i], x)
  {
    hide Fetches, Overlapping, Sorted, Cuts, SpanningTo, Disagree, Unselected, BytesIn;
    var obs, p := a.observations, a.pieces[k];
    ScannedWithin(rows, obs, w);
    assert Reports(obs, p);
    forall i | 0 <= i < |obs| ensures Spans(obs[i], p.start, p.end) <==> Holds(obs[i], x)
      ensures i in p.ids <==> Spans(obs[i], p.start, p.end)
    {
      HoldsIsSpans(obs, w, k, i, x);
      SpanningIn(obs, p.start, p.end, |obs|, i);
    }
    PieceInside(rows, w, fetch, a, k);
    if i :| 0 <= i < |rows| && HoldsAt(rows[i], w, x) {
      OverlappingHas(rows, w, |rows|, i);
      var j :| 0 <= j < |obs| && RowsIn(obs)[j] == rows[i];
      assert Holds(obs[j], x);
    }
    if j :| 0 <= j < |obs| && Holds(obs[j], x) {
      OverlappingFrom(rows, w, |rows|, j);
      assert RowsIn(obs)[j] == obs[j].row;
      var i :| 0 <= i < |rows| && rows[i] == obs[j].row;
      assert Overlaps(obs[j].row, w);
      assert HoldsAt(rows[i], w, x);
    }
  }

  predicate HoldsAt(r: Row, w: Window, x: int) {
    r.generation == w.generation && r.direction == w.direction && r.start <= x < r.end
  }

  lemma {:induction false} OverlappingFrom(rows: seq<Row>, w: Window, k: nat, j: int)
    requires k <= |rows| && 0 <= j < |Overlapping(rows, w, k)|
    ensures exists i :: 0 <= i < |rows| && rows[i] == Overlapping(rows, w, k)[j]
  {
    hide Overlaps;
    if k > 0 && j < |Overlapping(rows, w, k - 1)| {
      OverlappingFrom(rows, w, k - 1, j);
    }
  }

  lemma {:induction false} PieceInside(rows: seq<Row>, w: Window, fetch: Row -> Result<Fetched>, a: Answer, k: nat)
    requires Exact(rows, w, fetch, a) && w.start < w.end && k < |a.pieces|
    ensures w.start <= a.pieces[k].start < a.pieces[k].end <= w.end
  {
    hide Fetches, RowsIn, Reports, Overlapping, Sorted, Cuts;
    var cuts := Sorted(Cuts(a.observations, w));
    ScannedWithin(rows, a.observations, w);
    SortedFacts(a.observations, w);
    assert cuts[k] in cuts && cuts[k + 1] in cuts;
    CutsBounded(a.observations, w, cuts[k]);
    CutsBounded(a.observations, w, cuts[k + 1]);
  }

  lemma {:induction false} BytesInAt(o: Observation, a: int, b: int, x: int)
    requires Sized(o) && Spans(o, a, b) && a <= x < b
    ensures Holds(o, x) && |BytesIn(o, a, b)| == b - a && BytesIn(o, a, b)[x - a] == ByteAt(o, x)
  {
  }

  lemma {:induction false} BytesEqual(o: Observation, q: Observation, a: int, b: int)
    requires Sized(o) && Sized(q) && Spans(o, a, b) && Spans(q, a, b) && a < b
    ensures BytesIn(o, a, b) == BytesIn(q, a, b) <==> forall x | a <= x < b :: SameByte(o, q, x)
  {
    hide BytesIn;
    forall x | a <= x < b
      ensures Holds(o, x) && Holds(q, x) && |BytesIn(o, a, b)| == |BytesIn(q, a, b)| == b - a
      ensures BytesIn(o, a, b)[x - a] == ByteAt(o, x) && BytesIn(q, a, b)[x - a] == ByteAt(q, x)
    {
      BytesInAt(o, a, b, x);
      BytesInAt(q, a, b, x);
    }
    BytesInAt(o, a, b, a);
    BytesInAt(q, a, b, a);
    if forall x | a <= x < b :: SameByte(o, q, x) {
      forall y | 0 <= y < b - a ensures BytesIn(o, a, b)[y] == BytesIn(q, a, b)[y] {
        assert SameByte(o, q, a + y);
        assert BytesIn(o, a, b)[(a + y) - a] == ByteAt(o, a + y);
      }
    }
    if BytesIn(o, a, b) == BytesIn(q, a, b) {
      forall x | a <= x < b ensures SameByte(o, q, x) {
        assert BytesIn(o, a, b)[x - a] == ByteAt(o, x);
      }
    }
  }

  ghost predicate SameByte(o: Observation, q: Observation, x: int) {
    Sized(o) && Sized(q) && Holds(o, x) && Holds(q, x) && ByteAt(o, x) == ByteAt(q, x)
  }

  /** A piece conflicts exactly when two observations that hold it differ in one of its bytes. */
  lemma {:induction false} ConflictExact(rows: seq<Row>, w: Window, fetch: Row -> Result<Fetched>, a: Answer, k: nat)
    requires Exact(rows, w, fetch, a) && w.start < w.end && k < |a.pieces|
    ensures var p := a.pieces[k];
            p.status == Conflicting <==>
              exists i, j, x | i in p.ids && j in p.ids && p.start <= x < p.end ::
                i < |a.observations| && j < |a.observations| && !SameByte(a.observations[i], a.observations[j], x)
  {
    hide Overlapping, Sorted, Cuts, SpanningTo, BytesIn, Spans, RowsIn, SameByte;
    var obs, p := a.observations, a.pieces[k];
    PieceInside(rows, w, fetch, a, k);
    assert Reports(obs, p);
    forall i ensures i in p.ids <==> 0 <= i < |obs| && Spans(obs[i], p.start, p.end) {
      SpanningIn(obs, p.start, p.end, |obs|, i);
    }
    if p.status == Conflicting {
      var i, j :| 0 <= i < |obs| && 0 <= j < |obs| && Spans(obs[i], p.start, p.end) && Spans(obs[j], p.start, p.end)
        && BytesIn(obs[i], p.start, p.end) != BytesIn(obs[j], p.start, p.end);
      BytesEqual(obs[i], obs[j], p.start, p.end);
      var x :| p.start <= x < p.end && !SameByte(obs[i], obs[j], x);
      assert i in p.ids && j in p.ids;
    }
    if i, j, x :| i in p.ids && j in p.ids && p.start <= x < p.end && !SameByte(obs[i], obs[j], x) {
      BytesEqual(obs[i], obs[j], p.start, p.end);
      assert BytesIn(obs[i], p.start, p.end) != BytesIn(obs[j], p.start, p.end);
    }
  }

  /** Bytes are given exactly when every holder is selected and they agree, and then they are everyone's bytes. */
  lemma {:induction false} CandidateExact(rows: seq<Row>, w: Window, fetch: Row -> Result<Fetched>, a: Answer, k: nat)
    requires Exact(rows, w, fetch, a) && w.start < w.end && k < |a.pieces|
    ensures var p := a.pieces[k];
            p.bytes.Some? <==>
              && p.ids != [] && p.status != Conflicting
              && (forall i | i in p.ids :: i < |a.observations| && a.observations[i].row.selected)
    ensures var p := a.pieces[k];
            p.bytes.Some? ==>
              |p.bytes.value| == p.end - p.start
              && forall i, x | i in p.ids && p.start <= x < p.end ::
                   i < |a.observations| && Sized(a.observations[i]) && Holds(a.observations[i], x)
                   && p.bytes.value[x - p.start] == ByteAt(a.observations[i], x)
  {
    hide Overlapping, Sorted, Cuts, SpanningTo, BytesIn, Spans, RowsIn, Disagree, Tiles;
    var obs, p := a.observations, a.pieces[k];
    PieceInside(rows, w, fetch, a, k);
    assert Reports(obs, p);
    forall i ensures i in p.ids <==> 0 <= i < |obs| && Spans(obs[i], p.start, p.end) {
      SpanningIn(obs, p.start, p.end, |obs|, i);
    }
    if p.ids != [] {
      assert p.ids[0] in p.ids;
    }
    if p.bytes.Some? {
      var i :| 0 <= i < |obs| && Spans(obs[i], p.start, p.end);
      assert i in p.ids;
      BytesInAt(obs[i], p.start, p.end, p.start);
      forall j, x | j in p.ids && p.start <= x < p.end
        ensures Holds(obs[j], x) && p.bytes.value[x - p.start] == ByteAt(obs[j], x)
      {
        BytesInAt(obs[j], p.start, p.end, x);
      }
    }
  }
}
