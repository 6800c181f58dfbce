/**
 The external merge sort of the range index: sorted chunks become runs on disk, and passes merge up
 to a fixed number of runs at a time until one is left. Every row on disk is paid for.
 */
module ExternalSort {
  import opened Common
  import opened DiskBudgets
  import opened RowIndex
  import opened MergeSort

  // ---------------------------------------------------------------- runs on disk

  ghost function Pool(runs: seq<seq<Row>>): multiset<Row> {
    if runs == [] then multiset{} else Pool(runs[..|runs| - 1]) + multiset(runs[|runs| - 1])
  }

  ghost function RowCount(runs: seq<seq<Row>>): nat {
    if runs == [] then 0 else RowCount(runs[..|runs| - 1]) + |runs[|runs| - 1]|
  }

  lemma {:induction false} PoolAppend(a: seq<seq<Row>>, b: seq<seq<Row>>)
    ensures Pool(a + b) == Pool(a) + Pool(b)
  {
    if b == [] {
      assert a + b == a;
    } else {
      PoolAppend(a, b[..|b| - 1]);
      assert (a + b)[..|a + b| - 1] == a + b[..|b| - 1];
    }
  }

  lemma {:induction false} CountAppend(a: seq<seq<Row>>, b: seq<seq<Row>>)
    ensures RowCount(a + b) == RowCount(a) + RowCount(b)
  {
    if b == [] {
      assert a + b == a;
    } else {
      CountAppend(a, b[..|b| - 1]);
      assert (a + b)[..|a + b| - 1] == a + b[..|b| - 1];
    }
  }

  lemma {:induction false} PoolOne(run: seq<Row>)
    ensures Pool([run]) == multiset(run) && RowCount([run]) == |run|
  {
    assert [run][..0] == [];
  }

  lemma {:induction false} LeftIsPool(runs: seq<seq<Row>>, k: nat)
    requires k <= |runs|
    ensures Left(runs, Starts(|runs|), k) == Pool(runs[..k])
    ensures LeftCount(runs, Starts(|runs|), k) == RowCount(runs[..k])
  {
    if k > 0 {
      LeftIsPool(runs, k - 1);
      assert runs[..k][..k - 1] == runs[..k - 1];
      assert runs[k - 1][0..] == runs[k - 1];
    }
  }

  /** Give back the bytes of every run of a group. */
  method RemoveRuns(runs: seq<seq<Row>>, quota: DiskBudget) returns (ok: bool)
    modifies quota
    ensures ok <==> WIDTH * RowCount(runs) <= old(quota.used)
    ensures ok ==> quota.used == old(quota.used) - WIDTH * RowCount(runs)
    ensures quota.peak == old(quota.peak)
  {
    hide RowCount;
    CountNone();
    for k := 0 to |runs|
      invariant WIDTH * RowCount(runs[..k]) <= old(quota.used)
      invariant quota.used == old(quota.used) - WIDTH * RowCount(runs[..k])
      invariant quota.peak == old(quota.peak)
    {
      CountPrefix(runs, k);
      ok := quota.Release(WIDTH * |runs[k]|);
      if !ok {
        return;
      }
    }
    assert runs[..|runs|] == runs;
    ok := true;
  }

  lemma {:induction false} CountNone()
    ensures RowCount([]) == 0
  {
  }

  lemma {:induction false} CountPrefix(runs: seq<seq<Row>>, k: nat)
    requires k < |runs|
    ensures RowCount(runs[..k + 1]) == RowCount(runs[..k]) + |runs[k]| <= RowCount(runs)
  {
    assert runs[..k + 1][..k] == runs[..k];
    CountAppend(runs[..k + 1], runs[k + 1..]);
    assert runs == runs[..k + 1] + runs[k + 1..];
  }

  // ---------------------------------------------------------------- one pass

  /** The rows on disk during a pass: the runs written so far and the runs still to be merged. */
  ghost predicate Passing(runs: seq<seq<Row>>, out: seq<seq<Row>>, first: nat) {
    && first <= |runs| && AllSorted(out)
    && Pool(out) + Pool(runs[first..]) == Pool(runs)
    && RowCount(out) + RowCount(runs[first..]) == RowCount(runs)
  }

  lemma {:induction false} PassStep(runs: seq<seq<Row>>, out: seq<seq<Row>>, first: nat, end: nat, merged: seq<Row>)
    requires Passing(runs, out, first) && first < end <= |runs| && SortedRows(merged)
    requires multiset(merged) == Pool(runs[first..end]) && |merged| == RowCount(runs[first..end])
    ensures Passing(runs, out + [merged], end)
  {
    hide SortedRows, Pool, RowCount;
    assert runs[first..] == runs[first..end] + runs[end..];
    PoolAppend(runs[first..end], runs[end..]);
    CountAppend(runs[first..end], runs[end..]);
    PoolAppend(out, [merged]);
    CountAppend(out, [merged]);
    PoolOne(merged);
  }

  method MergePass(runs: seq<seq<Row>>, fanIn: nat, quota: DiskBudget, ghost base: nat) returns (r: Option<seq<seq<Row>>>)
    requires fanIn >= 2 && AllSorted(runs) && quota.used == base + WIDTH * RowCount(runs)
    modifies quota
    ensures r.Some? ==> Passing(runs, r.value, |runs|) && 2 * |r.value| <= |runs| + 1 && (runs != [] ==> r.value != [])
    ensures r.Some? ==> quota.used == base + WIDTH * RowCount(runs)
    ensures quota.peak <= Max(old(quota.peak), base + 2 * WIDTH * RowCount(runs))
    ensures r.None? ==> base + 2 * WIDTH * RowCount(runs) > quota.maximum
  {
    hide SortedRows, Pool, RowCount, Left, LeftCount, Passing, AllSorted;
    var out: seq<seq<Row>> := [];
    var first := 0;
    PassBegins(runs);
    while first < |runs|
      invariant 0 <= first <= |runs| && Passing(runs, out, first) && (first > 0 ==> out != [])
      invariant 2 * |out| <= if first < |runs| then first else first + 1
      invariant quota.used == base + WIDTH * RowCount(runs)
      invariant quota.peak <= Max(old(quota.peak), base + 2 * WIDTH * RowCount(runs))
    {
      var end := Min(|runs|, first + fanIn);
      var group := runs[first..end];
      GroupFacts(runs, first, end);
      var merged := Merge(group, quota);
      if merged.None? {
        return None;
      }
      PassStep(runs, out, first, end, merged.value);
      var ok := RemoveRuns(group, quota);
      assert ok;
      out := out + [merged.value];
      first := end;
    }
    r := Some(out);
  }

  lemma {:induction false} PassBegins(runs: seq<seq<Row>>)
    ensures Passing(runs, [], 0)
  {
    assert runs[0..] == runs;
  }

  lemma {:induction false} GroupFacts(runs: seq<seq<Row>>, first: nat, end: nat)
    requires first <= end <= |runs| && AllSorted(runs)
    ensures AllSorted(runs[first..end])
    ensures var group := runs[first..end];
            && Left(group, Starts(|group|), |group|) == Pool(group)
            && LeftCount(group, Starts(|group|), |group|) == RowCount(group) <= RowCount(runs)
  {
    hide SortedRows, Pool, RowCount, Left, LeftCount;
    var group := runs[first..end];
    LeftIsPool(group, |group|);
    assert group[..|group|] == group;
    CountAppend(runs[..first], group);
    CountAppend(runs[..end], runs[end..]);
    assert runs[..end] == runs[..first] + group && runs == runs[..end] + runs[end..];
  }

  // ---------------------------------------------------------------- the raw file

  function Entry(raw: seq<byte>, k: nat): seq<byte>
    requires WIDTH * k + WIDTH <= |raw|
  {
    raw[WIDTH * k..WIDTH * k + WIDTH]
  }

  /** The first k entries of a raw file, if each of them is a valid row. */
  function RowsTo(raw: seq<byte>, k: nat): Result<seq<Row>>
    requires WIDTH * k <= |raw|
  {
    if k == 0 then Ok([])
    else
      var before :- RowsTo(raw, k - 1);
      var r :- DecodeRow(Entry(raw, k - 1));
      Ok(before + [r])
  }

  /** All rows of a raw file; a partial entry at the end is an error. */
  function RowsOf(raw: seq<byte>): Result<seq<Row>> {
    var n := |raw| / WIDTH;
    var rows :- RowsTo(raw, n);
    if |raw| % WIDTH == 0 then Ok(rows) else Err(ROW_ERROR)
  }

  lemma {:induction false} RowsToSize(raw: seq<byte>, k: nat)
    requires WIDTH * k <= |raw| && RowsTo(raw, k).Ok?
    ensures |RowsTo(raw, k).value| == k
  {
    hide DecodeRow, Entry;
    if k > 0 {
      RowsToSize(raw, k - 1);
    }
  }

  lemma {:induction false} RowsToFails(raw: seq<byte>, k: nat, m: nat)
    requires k <= m && WIDTH * m <= |raw| && RowsTo(raw, k).Err?
    ensures RowsTo(raw, m).Err?
    decreases m - k
  {
    hide DecodeRow, Entry;
    if k < m {
      RowsToFails(raw, k, m - 1);
    }
  }

  lemma {:induction false} RowsOfFails(raw: seq<byte>, k: nat)
    requires WIDTH * k <= |raw| && RowsTo(raw, k).Err?
    ensures RowsOf(raw).Err?
  {
    hide RowsTo;
    RowsToFails(raw, k, |raw| / WIDTH);
  }

  /** Read the next chunk of at most `entries` rows, starting at entry n. */
  method ReadChunk(raw: seq<byte>, n: nat, entries: nat) returns (r: Result<seq<Row>>)
    requires WIDTH * n <= |raw| && entries >= 2 && RowsTo(raw, n).Ok?
    ensures r.Ok? ==>
              && WIDTH * (n + |r.value|) <= |raw|
              && RowsTo(raw, n + |r.value|) == Ok(RowsTo(raw, n).value + r.value)
              && (r.value == [] ==> WIDTH * n == |raw|)
    ensures r.Err? ==> RowsOf(raw).Err?
  {
    hide DecodeRow, RowsOf;
    var chunk: seq<Row> := [];
    assert RowsTo(raw, n).value + [] == RowsTo(raw, n).value;
    while |chunk| < entries
      invariant WIDTH * (n + |chunk|) <= |raw|
      invariant RowsTo(raw, n + |chunk|) == Ok(RowsTo(raw, n).value + chunk)
      decreases entries - |chunk|
    {
      var k := n + |chunk|;
      if WIDTH * k == |raw| {
        break;
      }
      if |raw| - WIDTH * k < WIDTH {
        PartialEntry(raw, k);
        return Err(ROW_ERROR);
      }
      var row := DecodeRow(Entry(raw, k));
      if row.Err? {
        RowsOfFails(raw, k + 1);
        return Err(row.error);
      }
      assert RowsTo(raw, n).value + (chunk + [row.value]) == (RowsTo(raw, n).value + chunk) + [row.value];
      chunk := chunk + [row.value];
    }
    r := Ok(chunk);
  }

  lemma {:induction false} PartialEntry(raw: seq<byte>, k: nat)
    requires WIDTH * k < |raw| < WIDTH * k + WIDTH
    ensures RowsOf(raw).Err?
  {
    hide RowsTo;
    assert |raw| % WIDTH != 0;
  }

  /** Write a sorted chunk as a run, paying row by row. */
  method WriteRun(chunk: seq<Row>, quota: DiskBudget) returns (r: Option<seq<Row>>)
    modifies quota
    ensures r.Some? ==> SortedRows(r.value) && multiset(r.value) == multiset(chunk) && |r.value| == |chunk|
    ensures r.Some? ==> quota.used == old(quota.used) + WIDTH * |chunk|
    ensures quota.peak <= Max(old(quota.peak), old(quota.used) + WIDTH * |chunk|)
    ensures r.None? ==> old(quota.used) + WIDTH * |chunk| > quota.maximum
  {
    hide SortedRows, SortChunk;
    var sorted := SortChunk(chunk);
    SortChunkSorted(chunk);
    for k := 0 to |sorted|
      invariant quota.used == old(quota.used) + WIDTH * k
      invariant quota.peak <= Max(old(quota.peak), old(quota.used) + WIDTH * |chunk|)
    {
      var ok := quota.Charge(WIDTH);
      if !ok {
        return None;
      }
    }
    r := Some(sorted);
  }

  ghost predicate RunsHold(runs: seq<seq<Row>>, rows: seq<Row>) {
    AllSorted(runs) && Pool(runs) == multiset(rows) && RowCount(runs) == |rows|
  }

  lemma {:induction false} RunAdded(runs: seq<seq<Row>>, rows: seq<Row>, chunk: seq<Row>, run: seq<Row>)
    requires RunsHold(runs, rows) && SortedRows(run) && multiset(run) == multiset(chunk) && |run| == |chunk|
    ensures RunsHold(runs + [run], rows + chunk)
  {
    hide SortedRows, Pool, RowCount;
    PoolAppend(runs, [run]);
    CountAppend(runs, [run]);
    PoolOne(run);
  }

  lemma {:induction false} NoRuns()
    ensures RunsHold([], [])
  {
  }

  lemma {:induction false} RunsPassed(runs: seq<seq<Row>>, out: seq<seq<Row>>, rows: seq<Row>)
    requires RunsHold(runs, rows) && Passing(runs, out, |runs|)
    ensures RunsHold(out, rows)
  {
    assert runs[|runs|..] == [];
  }

  lemma {:induction false} LastRun(runs: seq<seq<Row>>, rows: seq<Row>)
    requires RunsHold(runs, rows) && |runs| == 1
    ensures SortedRows(runs[0]) && multiset(runs[0]) == multiset(rows) && |runs[0]| == |rows|
  {
    hide SortedRows;
    assert runs == [runs[0]];
    PoolOne(runs[0]);
  }

  /** Turn the raw file into sorted runs of at most `entries` rows. */
  method CreateRuns(raw: seq<byte>, entries: nat, quota: DiskBudget) returns (r: Result<seq<seq<Row>>>)
    requires entries >= 2
    modifies quota
    ensures r.Ok? ==> RowsOf(raw).Ok? && RunsHold(r.value, RowsOf(raw).value)
    ensures r.Ok? ==> |raw| == WIDTH * |RowsOf(raw).value| && (r.value == [] <==> RowsOf(raw).value == [])
    ensures r.Ok? ==> quota.used == old(quota.used) + |raw|
    ensures quota.peak <= Max(old(quota.peak), old(quota.used) + |raw|)
    ensures r.Err? ==> RowsOf(raw).Err? || old(quota.used) + |raw| > quota.maximum
  {
    hide RowsTo, RowsOf, RunsHold, SortedRows;
    var runs: seq<seq<Row>> := [];
    var n := 0;
    NoRows(raw);
    NoRuns();
    while true
      invariant WIDTH * n <= |raw| && RowsTo(raw, n).Ok? && |RowsTo(raw, n).value| == n
      invariant RunsHold(runs, RowsTo(raw, n).value) && (runs == [] <==> n == 0)
      invariant quota.used == old(quota.used) + WIDTH * n
      invariant quota.peak <= Max(old(quota.peak), old(quota.used) + |raw|)
      decreases |raw| - WIDTH * n
    {
      var chunk := ReadChunk(raw, n, entries);
      if chunk.Err? {
        return Err(chunk.error);
      }
      if chunk.value == [] {
        break;
      }
      var run := WriteRun(chunk.value, quota);
      if run.None? {
        return Err(Limit("history_disk"));
      }
      RunAdded(runs, RowsTo(raw, n).value, chunk.value, run.value);
      RowsToSize(raw, n + |chunk.value|);
      runs := runs + [run.value];
      n := n + |chunk.value|;
    }
    WholeFile(raw, n);
    r := Ok(runs);
  }

  lemma {:induction false} NoRows(raw: seq<byte>)
    ensures RowsTo(raw, 0) == Ok([])
  {
  }

  lemma {:induction false} WholeFile(raw: seq<byte>, n: nat)
    requires WIDTH * n == |raw| && RowsTo(raw, n).Ok?
    ensures RowsOf(raw) == RowsTo(raw, n)
  {
    assert |raw| / WIDTH == n && |raw| % WIDTH == 0;
  }

  /**
   The whole sort. Given at least two entries a chunk and two runs a merge it always terminates; its
   result is a sorted permutation of the raw rows. Disk use never exceeds twice the raw bytes on top
   of what else is stored, and ends at exactly the size of the output.
   */
  method Sort(raw: seq<byte>, entries: nat, fanIn: nat, quota: DiskBudget, ghost base: nat)
    returns (r: Result<(seq<Row>, nat)>)
    requires quota.used == base + |raw|
    modifies quota
    ensures r.Ok? ==>
              && RowsOf(raw).Ok? && SortedRows(r.value.0) && multiset(r.value.0) == multiset(RowsOf(raw).value)
              && r.value.1 == |r.value.0| == |RowsOf(raw).value|
              && quota.used == base + WIDTH * |r.value.0|
    ensures quota.peak <= Max(old(quota.peak), base + 2 * |raw|)
    ensures r.Err? ==>
              || !(2 <= entries <= 1_000_000) || !(2 <= fanIn <= 64)
              || RowsOf(raw).Err? || base + 2 * |raw| > quota.maximum
  {
    hide RowsTo, RowsOf, RunsHold, SortedRows, Passing;
    if !(2 <= entries <= 1_000_000) || !(2 <= fanIn <= 64) {
      return Err(Bad("history_sort"));
    }
    var made := CreateRuns(raw, entries, quota);
    if made.Err? {
      return Err(made.error);
    }
    var runs := made.value;
    ghost var rows := RowsOf(raw).value;
    var ok := quota.Release(|raw|);
    assert ok;
    if runs == [] {
      NoRowsSorted(rows);
      return Ok(([], 0));
    }
    RunsCount(runs, rows);
    while |runs| > 1
      invariant runs != [] && RunsHold(runs, rows)
      invariant quota.used == base + WIDTH * |rows| && AllSorted(runs) && RowCount(runs) == |rows|
      invariant quota.peak <= Max(old(quota.peak), base + 2 * |raw|)
      decreases |runs|
    {
      var next := MergePass(runs, fanIn, quota, base);
      if next.None? {
        return Err(Limit("history_disk"));
      }
      RunsPassed(runs, next.value, rows);
      runs := next.value;
      RunsCount(runs, rows);
    }
    LastRun(runs, rows);
    r := Ok((runs[0], |runs[0]|));
  }

  lemma {:induction false} NoRowsSorted(rows: seq<Row>)
    requires rows == []
    ensures SortedRows([]) && multiset(rows) == multiset{}
  {
  }

  lemma {:induction false} RunsCount(runs: seq<seq<Row>>, rows: seq<Row>)
    requires RunsHold(runs, rows)
    ensures AllSorted(runs) && RowCount(runs) == |rows|
  {
  }
}
