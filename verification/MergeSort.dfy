/** Sorted runs of rows: sorting one chunk in memory and merging several runs through a heap. */
module MergeSort {
  import opened Common
  import opened DiskBudgets
  import opened RowIndex
  import Lexicographic

  // ---------------------------------------------------------------- one chunk

  function InsertRow(rows: seq<Row>, r: Row): seq<Row> {
    if rows == [] then [r]
    else if RowLeq(rows[|rows| - 1], r) then rows + [r]
    else InsertRow(rows[..|rows| - 1], r) + [rows[|rows| - 1]]
  }

  function SortChunk(rows: seq<Row>): seq<Row> {
    if rows == [] then [] else InsertRow(SortChunk(rows[..|rows| - 1]), rows[|rows| - 1])
  }

  ghost predicate AllLeq(rows: seq<Row>, r: Row) {
    forall i | 0 <= i < |rows| :: RowLeq(rows[i], r)
  }

  lemma {:induction false} SortedSnoc(rows: seq<Row>, r: Row)
    requires SortedRows(rows) && AllLeq(rows, r)
    ensures SortedRows(rows + [r])
  {
    hide RowLeq;
  }

  lemma {:induction false} SortedPrefix(rows: seq<Row>, k: nat)
    requires SortedRows(rows) && k <= |rows|
    ensures SortedRows(rows[..k])
  {
    hide RowLeq;
  }

  lemma {:induction false} AllLeqLast(rows: seq<Row>, r: Row)
    requires SortedRows(rows) && rows != [] && RowLeq(rows[|rows| - 1], r)
    ensures AllLeq(rows, r)
  {
    hide RowLeq;
    forall i | 0 <= i < |rows| ensures RowLeq(rows[i], r) {
      if i < |rows| - 1 {
        RowLeqTransitive(rows[i], rows[|rows| - 1], r);
      }
    }
  }

  lemma {:induction false} AllLeqSnoc(rows: seq<Row>, last: Row, r: Row)
    requires AllLeq(rows, r) && RowLeq(last, r)
    ensures AllLeq(rows + [last], r)
  {
    hide RowLeq;
  }

  lemma {:induction false} InsertRowSorted(rows: seq<Row>, r: Row, bound: Row)
    requires SortedRows(rows)
    ensures SortedRows(InsertRow(rows, r)) && multiset(InsertRow(rows, r)) == multiset(rows) + multiset{r}
    ensures AllLeq(rows, bound) && RowLeq(r, bound) ==> AllLeq(InsertRow(rows, r), bound)
  {
    hide RowLeq;
    if rows != [] {
      var init, last := rows[..|rows| - 1], rows[|rows| - 1];
      assert rows == init + [last];
      if RowLeq(last, r) {
        AllLeqLast(rows, r);
        SortedSnoc(rows, r);
        if AllLeq(rows, bound) && RowLeq(r, bound) {
          AllLeqSnoc(rows, r, bound);
        }
      } else {
        SortedPrefix(rows, |rows| - 1);
        RowLeqTotal(last, r);
        InsertRowSorted(init, r, last);
        assert AllLeq(init, last);
        SortedSnoc(InsertRow(init, r), last);
        if AllLeq(rows, bound) && RowLeq(r, bound) {
          InsertRowSorted(init, r, bound);
          AllLeqSnoc(InsertRow(init, r), last, bound);
        }
      }
    }
  }

  lemma {:induction false} SortChunkSorted(rows: seq<Row>)
    ensures SortedRows(SortChunk(rows)) && multiset(SortChunk(rows)) == multiset(rows)
    ensures |SortChunk(rows)| == |rows|
  {
    hide InsertRow, RowLeq;
    if rows != [] {
      var init, last := rows[..|rows| - 1], rows[|rows| - 1];
      SortChunkSorted(init);
      InsertRowSorted(SortChunk(init), last, last);
      assert rows == init + [last];
      assert |multiset(SortChunk(rows))| == |SortChunk(rows)| && |multiset(rows)| == |rows|;
    }
  }

  // ---------------------------------------------------------------- the heap of heads

  /** The next row of a run, with the run it comes from. */
  type Head = (Row, nat)

  predicate HeadLeq(x: Head, y: Head) {
    Lexicographic.Less(RowOrder(x.0), RowOrder(y.0)) || (x.0 == y.0 && x.1 <= y.1)
  }

  lemma {:induction false} HeadLeqRow(x: Head, y: Head)
    requires HeadLeq(x, y)
    ensures RowLeq(x.0, y.0)
  {
    hide RowOrder;
    if Lexicographic.Less(RowOrder(x.0), RowOrder(y.0)) {
      Lexicographic.Asymmetric(RowOrder(x.0), RowOrder(y.0));
    } else {
      Lexicographic.Irreflexive(RowOrder(x.0));
    }
  }

  lemma {:induction false} HeadLeqTotal(x: Head, y: Head)
    ensures HeadLeq(x, y) || HeadLeq(y, x)
  {
    hide RowOrder, Lexicographic.Less;
    RowLeqTotal(x.0, y.0);
    if !Lexicographic.Less(RowOrder(x.0), RowOrder(y.0)) && !Lexicographic.Less(RowOrder(y.0), RowOrder(x.0)) {
      RowLeqAntisymmetric(x.0, y.0);
    }
  }

  lemma {:induction false} HeadLeqTransitive(x: Head, y: Head, z: Head)
    requires HeadLeq(x, y) && HeadLeq(y, z)
    ensures HeadLeq(x, z)
  {
    hide RowOrder, Lexicographic.Less;
    if Lexicographic.Less(RowOrder(x.0), RowOrder(y.0)) && Lexicographic.Less(RowOrder(y.0), RowOrder(z.0)) {
      Lexicographic.Transitive(RowOrder(x.0), RowOrder(y.0), RowOrder(z.0));
    }
  }

  ghost predicate IsLeastHead(heap: set<Head>, x: Head) {
    x in heap && forall y | y in heap :: HeadLeq(x, y)
  }

  lemma {:induction false} SomeHead(heap: set<Head>)
    requires heap != {}
    ensures exists x :: x in heap
  {
    assert (forall x :: x !in heap) ==> heap == {};
  }

  /** A heap that is not empty has a least head. */
  lemma {:induction false} LeastHead(heap: set<Head>) returns (m: Head)
    requires heap != {}
    ensures IsLeastHead(heap, m)
    decreases |heap|
  {
    hide HeadLeq;
    SomeHead(heap);
    var x :| x in heap;
    HeadLeqTotal(x, x);
    m := x;
    if heap != {x} {
      var rest := heap - {x};
      assert heap == rest + {x};
      var n := LeastHead(rest);
      HeadLeqTotal(x, n);
      HeadLeqTotal(n, n);
      m := if HeadLeq(x, n) then x else n;
      forall y | y in heap ensures HeadLeq(m, y) {
        if m == x && y != x {
          HeadLeqTransitive(x, n, y);
        }
      }
    }
  }

  ghost function Heads(runs: seq<seq<Row>>, at: seq<nat>): set<Head>
    requires |at| == |runs|
  {
    set i | 0 <= i < |runs| && at[i] < |runs[i]| :: (runs[i][at[i]], i)
  }

  // ---------------------------------------------------------------- what is still to be merged

  ghost predicate Positions(runs: seq<seq<Row>>, at: seq<nat>) {
    |at| == |runs| && forall i | 0 <= i < |runs| :: at[i] <= |runs[i]|
  }

  /** The rows of the first k runs that have not been read yet. */
  ghost function Left(runs: seq<seq<Row>>, at: seq<nat>, k: nat): multiset<Row>
    requires Positions(runs, at) && k <= |runs|
  {
    if k == 0 then multiset{} else Left(runs, at, k - 1) + multiset(runs[k - 1][at[k - 1]..])
  }

  ghost function LeftCount(runs: seq<seq<Row>>, at: seq<nat>, k: nat): nat
    requires Positions(runs, at) && k <= |runs|
  {
    if k == 0 then 0 else LeftCount(runs, at, k - 1) + (|runs[k - 1]| - at[k - 1])
  }

  lemma {:induction false} TailSplit(run: seq<Row>, k: nat)
    requires k < |run|
    ensures multiset(run[k..]) == multiset(run[k + 1..]) + multiset{run[k]}
  {
    assert run[k..] == [run[k]] + run[k + 1..];
  }

  lemma {:induction false} LeftStep(runs: seq<seq<Row>>, at: seq<nat>, i: nat, k: nat)
    requires Positions(runs, at) && i < |runs| && at[i] < |runs[i]| && k <= |runs|
    ensures Positions(runs, at[i := at[i] + 1])
    ensures Left(runs, at, k)
         == if i < k then Left(runs, at[i := at[i] + 1], k) + multiset{runs[i][at[i]]} else Left(runs, at[i := at[i] + 1], k)
  {
    hide Left;
    var next := at[i := at[i] + 1];
    assert Positions(runs, next);
    if k == 0 {
      LeftUnfold(runs, at, 0);
      LeftUnfold(runs, next, 0);
    } else {
      LeftStep(runs, at, i, k - 1);
      LeftUnfold(runs, at, k);
      LeftUnfold(runs, next, k);
      TailSplit(runs[i], at[i]);
      Regroup(Left(runs, next, k - 1), multiset(runs[k - 1][next[k - 1]..]), multiset{runs[i][at[i]]});
    }
  }

  lemma {:induction false} LeftUnfold(runs: seq<seq<Row>>, at: seq<nat>, k: nat)
    requires Positions(runs, at) && k <= |runs|
    ensures k == 0 ==> Left(runs, at, k) == multiset{}
    ensures k > 0 ==> Left(runs, at, k) == Left(runs, at, k - 1) + multiset(runs[k - 1][at[k - 1]..])
  {
  }

  lemma {:induction false} Regroup(a: multiset<Row>, b: multiset<Row>, c: multiset<Row>)
    ensures a + (b + c) == (a + b) + c && (a + c) + b == (a + b) + c
  {
  }

  lemma {:induction false} LeftCountStep(runs: seq<seq<Row>>, at: seq<nat>, i: nat, k: nat)
    requires Positions(runs, at) && i < |runs| && at[i] < |runs[i]| && k <= |runs|
    ensures Positions(runs, at[i := at[i] + 1])
    ensures LeftCount(runs, at, k) == LeftCount(runs, at[i := at[i] + 1], k) + if i < k then 1 else 0
  {
    if k > 0 {
      LeftCountStep(runs, at, i, k - 1);
    }
  }

  lemma {:induction false} LeftNothing(runs: seq<seq<Row>>, at: seq<nat>, k: nat)
    requires Positions(runs, at) && Heads(runs, at) == {} && k <= |runs|
    ensures Left(runs, at, k) == multiset{} && LeftCount(runs, at, k) == 0
  {
    hide Heads;
    if k > 0 {
      LeftNothing(runs, at, k - 1);
      if at[k - 1] < |runs[k - 1]| {
        InHeads(runs, at, (runs[k - 1][at[k - 1]], k - 1));
      }
    }
  }

  function Starts(n: nat): (at: seq<nat>)
    ensures |at| == n && forall i | 0 <= i < n :: at[i] == 0
  {
    seq(n, i => 0)
  }

  // ---------------------------------------------------------------- one step

  ghost predicate AllSorted(runs: seq<seq<Row>>) {
    forall i | 0 <= i < |runs| :: SortedRows(runs[i])
  }

  ghost predicate Below(out: seq<Row>, heap: set<Head>) {
    forall h: Head | h in heap :: AllLeq(out, h.0)
  }

  function NextHead(runs: seq<seq<Row>>, at: seq<nat>, i: nat): set<Head>
    requires i < |runs| == |at|
  {
    if at[i] + 1 < |runs[i]| then {(runs[i][at[i] + 1], i)} else {}
  }

  lemma {:induction false} InHeads(runs: seq<seq<Row>>, at: seq<nat>, h: Head)
    requires |at| == |runs|
    ensures h in Heads(runs, at) <==> h.1 < |runs| && at[h.1] < |runs[h.1]| && runs[h.1][at[h.1]] == h.0
  {
  }

  lemma {:induction false} HeadsStep(runs: seq<seq<Row>>, at: seq<nat>, x: Head)
    requires Positions(runs, at) && x in Heads(runs, at)
    ensures x.1 < |runs| && at[x.1] < |runs[x.1]| && runs[x.1][at[x.1]] == x.0
    ensures Heads(runs, at[x.1 := at[x.1] + 1]) == Heads(runs, at) - {x} + NextHead(runs, at, x.1)
  {
    hide Heads;
    InHeads(runs, at, x);
    var next := at[x.1 := at[x.1] + 1];
    forall h ensures h in Heads(runs, next) <==> h in Heads(runs, at) - {x} + NextHead(runs, at, x.1) {
      InHeads(runs, at, h);
      InHeads(runs, next, h);
    }
  }

  /** Popping the least head keeps the output sorted and below everything to come. */
  lemma {:induction false} PopSorted(runs: seq<seq<Row>>, at: seq<nat>, out: seq<Row>, x: Head)
    requires Positions(runs, at) && AllSorted(runs) && SortedRows(out) && Below(out, Heads(runs, at))
    requires IsLeastHead(Heads(runs, at), x)
    ensures SortedRows(out + [x.0]) && Below(out + [x.0], Heads(runs, at[x.1 := at[x.1] + 1]))
  {
    hide Heads, HeadLeq, RowLeq, SortedRows, AllLeq;
    HeadsStep(runs, at, x);
    SortedSnoc(out, x.0);
    var next := at[x.1 := at[x.1] + 1];
    forall h: Head | h in Heads(runs, next) ensures AllLeq(out + [x.0], h.0) {
      if h in Heads(runs, at) {
        HeadLeqRow(x, h);
      } else {
        RunStep(runs[x.1], at[x.1]);
        AllLeqThrough(out, x.0, h.0);
      }
      AllLeqSnoc(out, x.0, h.0);
    }
  }

  lemma {:induction false} RunStep(run: seq<Row>, k: nat)
    requires SortedRows(run) && k + 1 < |run|
    ensures RowLeq(run[k], run[k + 1])
  {
    hide RowLeq;
  }

  lemma {:induction false} AllLeqThrough(rows: seq<Row>, m: Row, r: Row)
    requires AllLeq(rows, m) && RowLeq(m, r)
    ensures AllLeq(rows, r)
  {
    hide RowLeq;
    forall i | 0 <= i < |rows| ensures RowLeq(rows[i], r) {
      RowLeqTransitive(rows[i], m, r);
    }
  }

  /** Merge sorted runs, paying for every row written. */
  method Merge(runs: seq<seq<Row>>, quota: DiskBudget) returns (r: Option<seq<Row>>)
    requires AllSorted(runs)
    modifies quota
    ensures r.Some? ==> SortedRows(r.value) && multiset(r.value) == Left(runs, Starts(|runs|), |runs|)
    ensures r.Some? ==> |r.value| == LeftCount(runs, Starts(|runs|), |runs|) && quota.used == old(quota.used) + WIDTH * |r.value|
    ensures quota.peak <= Max(old(quota.peak), old(quota.used) + WIDTH * LeftCount(runs, Starts(|runs|), |runs|))
    ensures r.None? ==> old(quota.used) + WIDTH * LeftCount(runs, Starts(|runs|), |runs|) > quota.maximum
  {
    hide Heads, HeadLeq, RowLeq, SortedRows, AllSorted, Left, LeftCount, AllLeq;
    var at := Starts(|runs|);
    var heap: set<Head> := set i | 0 <= i < |runs| && 0 < |runs[i]| :: (runs[i][0], i);
    FirstHeads(runs);
    var out: seq<Row> := [];
    Nothing();
    ghost var total := LeftCount(runs, at, |runs|);
    while heap != {}
      invariant Positions(runs, at) && heap == Heads(runs, at)
      invariant SortedRows(out) && Below(out, heap)
      invariant multiset(out) + Left(runs, at, |runs|) == Left(runs, Starts(|runs|), |runs|)
      invariant |out| + LeftCount(runs, at, |runs|) == total
      invariant quota.used == old(quota.used) + WIDTH * |out|
      invariant quota.peak <= Max(old(quota.peak), old(quota.used) + WIDTH * total)
      decreases LeftCount(runs, at, |runs|)
    {
      ghost var least := LeastHead(heap);
      assert IsLeastHead(heap, least);
      var x :| x in heap && forall y | y in heap :: HeadLeq(x, y);
      HeadsStep(runs, at, x);
      PopSorted(runs, at, out, x);
      LeftStep(runs, at, x.1, |runs|);
      LeftCountStep(runs, at, x.1, |runs|);
      var ok := quota.Charge(WIDTH);
      if !ok {
        return None;
      }
      Moved(out, Left(runs, at, |runs|), Left(runs, at[x.1 := at[x.1] + 1], |runs|), x.0);
      out := out + [x.0];
      heap := heap - {x} + NextHead(runs, at, x.1);
      at := at[x.1 := at[x.1] + 1];
    }
    LeftNothing(runs, at, |runs|);
    r := Some(out);
  }

  lemma {:induction false} Moved(out: seq<Row>, before: multiset<Row>, after: multiset<Row>, x: Row)
    requires before == after + multiset{x}
    ensures multiset(out + [x]) + after == multiset(out) + before
  {
  }

  lemma {:induction false} FirstHeads(runs: seq<seq<Row>>)
    ensures Heads(runs, Starts(|runs|)) == set i | 0 <= i < |runs| && 0 < |runs[i]| :: (runs[i][0], i)
  {
  }

  lemma {:induction false} Nothing()
    ensures SortedRows([]) && forall r: Row :: AllLeq([], r)
  {
  }
}
