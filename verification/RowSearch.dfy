/** Binary search in the sorted range index, and why a windowed scan finds every overlapping row. */
module RowSearch {
  import opened Common
  import opened Codec
  import opened RowIndex
  import Lexicographic

  ghost predicate GoodIndex(rows: seq<Row>) {
    SortedRows(rows) && forall i | 0 <= i < |rows| :: RowOk(rows[i])
  }

  function Place(r: Row): seq<int> {
    PlaceOrder(r.generation, r.direction, r.start)
  }

  lemma {:induction false} PlacesSorted(rows: seq<Row>, i: int, j: int)
    requires SortedRows(rows) && 0 <= i <= j < |rows|
    ensures Lexicographic.Leq(Place(rows[i]), Place(rows[j]))
  {
    hide RowLeq, PlaceOrder;
    if i < j {
      PlaceMonotone(rows[i], rows[j]);
    } else {
      Lexicographic.Irreflexive(Place(rows[i]));
    }
  }

  lemma {:induction false} LessLeq(a: seq<int>, b: seq<int>, c: seq<int>)
    ensures Lexicographic.Leq(a, b) && Lexicographic.Less(b, c) ==> Lexicographic.Less(a, c)
    ensures !Lexicographic.Less(a, c) && Lexicographic.Leq(a, b) ==> !Lexicographic.Less(b, c)
  {
    hide Lexicographic.Less;
    Lexicographic.Total(a, b);
    if Lexicographic.Less(a, b) && Lexicographic.Less(b, c) {
      Lexicographic.Transitive(a, b, c);
    }
  }

  /** The first entry not below a place. */
  method LowerBound(rows: seq<Row>, generation: Digest, direction: u8, start: i64) returns (lo: nat)
    requires SortedRows(rows)
    ensures lo <= |rows|
    ensures forall i | 0 <= i < lo :: Lexicographic.Less(Place(rows[i]), PlaceOrder(generation, direction, start))
    ensures forall i | lo <= i < |rows| :: !Lexicographic.Less(Place(rows[i]), PlaceOrder(generation, direction, start))
  {
    hide SortedRows, PlaceOrder, Lexicographic.Less, Lexicographic.Leq;
    var key := PlaceOrder(generation, direction, start);
    lo := 0;
    var hi := |rows|;
    while lo < hi
      invariant 0 <= lo <= hi <= |rows|
      invariant forall i | 0 <= i < lo :: Lexicographic.Less(Place(rows[i]), key)
      invariant forall i | hi <= i < |rows| :: !Lexicographic.Less(Place(rows[i]), key)
      decreases hi - lo
    {
      var mid := lo + (hi - lo) / 2;
      if Lexicographic.Less(Place(rows[mid]), key) {
        forall i | lo <= i <= mid ensures Lexicographic.Less(Place(rows[i]), key) {
          PlacesSorted(rows, i, mid);
          LessLeq(Place(rows[i]), Place(rows[mid]), key);
        }
        lo := mid + 1;
      } else {
        forall i | mid <= i < |rows| ensures !Lexicographic.Less(Place(rows[i]), key) {
          PlacesSorted(rows, mid, i);
          LessLeq(Place(rows[mid]), Place(rows[i]), key);
        }
        hi := mid;
      }
    }
  }

  // ---------------------------------------------------------------- overlap

  datatype Window = Window(generation: Digest, direction: u8, start: i64, end: i64)

  predicate Overlaps(r: Row, w: Window) {
    r.generation == w.generation && r.direction == w.direction && r.start < w.end && w.start < r.end
  }

  /** Where the scan for a window begins: no row is longer than 65535 bytes. */
  function ScanFrom(w: Window): i64 {
    SaturateI64(w.start - 65535)
  }

  /** The overlapping rows among the first k, in index order: a plain linear scan. */
  function Overlapping(rows: seq<Row>, w: Window, k: nat): seq<Row>
    requires k <= |rows|
  {
    if k == 0 then []
    else Overlapping(rows, w, k - 1) + (if Overlaps(rows[k - 1], w) then [rows[k - 1]] else [])
  }

  lemma {:induction false} NoneAdded(rows: seq<Row>, w: Window, j: nat, k: nat)
    requires j <= k <= |rows| && forall i | j <= i < k :: !Overlaps(rows[i], w)
    ensures Overlapping(rows, w, k) == Overlapping(rows, w, j)
  {
    hide Overlaps;
    if j < k {
      NoneAdded(rows, w, j, k - 1);
    }
  }

  /** Rows below the scan's start cannot reach the window. */
  lemma {:induction false} BelowScan(r: Row, w: Window)
    requires RowOk(r) && Lexicographic.Less(Place(r), PlaceOrder(w.generation, w.direction, ScanFrom(w)))
    ensures !Overlaps(r, w)
  {
    hide Lexicographic.Less, PlaceOrder;
    PlaceLess(r.generation, r.direction, r.start, w.generation, w.direction, ScanFrom(w));
    Lexicographic.Irreflexive(w.generation);
  }

  /** Where the scan stops, nothing behind can overlap. */
  predicate Stops(r: Row, w: Window) {
    r.generation != w.generation || r.direction != w.direction || r.start >= w.end
  }

  lemma {:induction false} BeyondStop(r: Row, s: Row, w: Window)
    requires !Lexicographic.Less(Place(r), PlaceOrder(w.generation, w.direction, ScanFrom(w)))
    requires Stops(r, w) && Lexicographic.Leq(Place(r), Place(s))
    ensures !Overlaps(s, w)
  {
    hide Lexicographic.Less, PlaceOrder;
    if Overlaps(s, w) {
      PlaceLess(r.generation, r.direction, r.start, w.generation, w.direction, ScanFrom(w));
      PlaceLess(s.generation, s.direction, s.start, r.generation, r.direction, r.start);
      Lexicographic.Total(r.generation, w.generation);
    }
  }

  lemma {:induction false} ScanBegins(rows: seq<Row>, w: Window, lo: nat)
    requires GoodIndex(rows) && lo <= |rows|
    requires forall i | 0 <= i < lo :: Lexicographic.Less(Place(rows[i]), PlaceOrder(w.generation, w.direction, ScanFrom(w)))
    ensures Overlapping(rows, w, lo) == []
  {
    hide Lexicographic.Less, PlaceOrder, SortedRows, Overlaps, RowOk, Place;
    forall i | 0 <= i < lo ensures !Overlaps(rows[i], w) {
      BelowScan(rows[i], w);
    }
    NoneAdded(rows, w, 0, lo);
  }

  lemma {:induction false} ScanEnds(rows: seq<Row>, w: Window, k: nat)
    requires GoodIndex(rows) && k < |rows| && Stops(rows[k], w)
    requires !Lexicographic.Less(Place(rows[k]), PlaceOrder(w.generation, w.direction, ScanFrom(w)))
    ensures Overlapping(rows, w, |rows|) == Overlapping(rows, w, k)
  {
    hide Lexicographic.Less, PlaceOrder, SortedRows, Overlaps, RowOk, Place, Stops;
    forall i | k <= i < |rows| ensures !Overlaps(rows[i], w) {
      PlacesSorted(rows, k, i);
      BeyondStop(rows[k], rows[i], w);
    }
    NoneAdded(rows, w, k, |rows|);
  }
}
