/**
 The range index from the decisions to its opening. Every placement of a decision becomes a row; the
 sorted rows are accepted only if no two are equal, which holds unless identities collide.
 */
module HistoryIndex {
  import opened Common
  import opened Codec
  import opened DiskBudgets
  import opened HistoryModel
  import opened HistoryInput
  import opened TupleStates
  import opened TupleSafety
  import opened TupleIdentity
  import opened StateStore
  import opened StoreRuns
  import opened RowIndex
  import opened RowSearch
  import opened ExternalSort
  import opened Permutations
  import Lexicographic

  // ---------------------------------------------------------------- one decision as rows

  /** A decision with the size of its segment's payload and the record that keeps it. */
  datatype Kept = Kept(placements: seq<Placement>, payload: nat, recordOffset: u64, recordDigest: Digest, ordinal: u64) {
    ghost predicate Valid() {
      payload <= 65535 && ordinal != 0
    }
  }

  function DirectionCode(d: Direction): u8 {
    if d == Forward then 0 else 1
  }

  function RowFor(p: Placement, e: Kept): Result<Row> {
    if p.offset + e.payload > I64_MAX then Err(Limit("sequence_span"))
    else Ok(Row(p.generation, DirectionCode(p.direction), p.selected, p.offset, p.offset + e.payload, e.recordOffset, e.recordDigest, e.ordinal))
  }

  /** The rows of the first k placements. */
  function RowsFor(e: Kept, k: nat): Result<seq<Row>>
    requires k <= |e.placements|
  {
    if k == 0 then Ok([])
    else
      var before :- RowsFor(e, k - 1);
      var row :- RowFor(e.placements[k - 1], e);
      Ok(before + [row])
  }

  /** A segment without payload leaves no rows. */
  function RowsOfKept(e: Kept): Result<seq<Row>> {
    if e.payload == 0 then Ok([]) else RowsFor(e, |e.placements|)
  }

  /** The rows of the first n decisions. */
  function RowsOfAll(es: seq<Kept>, n: nat): Result<seq<Row>>
    requires n <= |es|
  {
    if n == 0 then Ok([])
    else
      var before :- RowsOfAll(es, n - 1);
      var rows :- RowsOfKept(es[n - 1]);
      Ok(before + rows)
  }

  lemma {:induction false} RowForOk(p: Placement, e: Kept)
    requires e.Valid() && e.payload > 0 && RowFor(p, e).Ok?
    ensures RowOk(RowFor(p, e).value)
  {
  }

  lemma {:induction false} RowsForFails(e: Kept, j: nat, k: nat)
    requires j <= k <= |e.placements| && RowsFor(e, j).Err?
    ensures RowsFor(e, k).Err?
  {
    hide RowFor;
    if j < k {
      RowsForFails(e, j, k - 1);
    }
  }

  lemma {:induction false} RowFileSnoc(rows: seq<Row>, r: Row)
    ensures RowFile(rows + [r]) == RowFile(rows) + PutRow(r, [])
  {
    hide PutRow;
    assert (rows + [r])[..|rows|] == rows;
  }

  /** Write the rows of a decision behind those already written, paying for each. */
  method AppendRows(raw: seq<byte>, e: Kept, quota: DiskBudget) returns (r: Result<seq<byte>>)
    requires e.Valid()
    modifies quota
    ensures r.Ok? ==>
              && RowsOfKept(e).Ok? && r.value == raw + RowFile(RowsOfKept(e).value)
              && quota.used == old(quota.used) + WIDTH * |RowsOfKept(e).value|
    ensures r.Err? && RowsOfKept(e).Ok? ==> old(quota.used) + WIDTH * |RowsOfKept(e).value| > quota.maximum
  {
    hide RowFor, RowsFor, PutRow, EncodeRow, DecodeRow, RowOk, RowFile;
    NoFile();
    if e.payload == 0 {
      assert raw + [] == raw;
      return Ok(raw);
    }
    var out := raw;
    ghost var rows: seq<Row> := [];
    NoRowsFor(e);
    for k := 0 to |e.placements|
      invariant RowsFor(e, k) == Ok(rows) && |rows| == k && out == raw + RowFile(rows)
      invariant quota.used == old(quota.used) + WIDTH * k
    {
      RowsForStep(e, k);
      var row := RowFor(e.placements[k], e);
      if row.Err? {
        RowsForFails(e, k + 1, |e.placements|);
        return Err(row.error);
      }
      RowForOk(e.placements[k], e);
      RowRoundTrip(row.value);
      EncodesAs(row.value);
      var bytes := EncodeRow(row.value);
      var ok := quota.Charge(|bytes.value|);
      if !ok {
        RowsForSize(e, |e.placements|);
        return Err(Limit("history_disk"));
      }
      RowFileSnoc(rows, row.value);
      AppendBehind(raw, RowFile(rows), bytes.value);
      out := out + bytes.value;
      rows := rows + [row.value];
    }
    r := Ok(out);
  }

  lemma {:induction false} AppendBehind(a: seq<byte>, b: seq<byte>, c: seq<byte>)
    ensures (a + b) + c == a + (b + c)
  {
  }

  lemma {:induction false} RowsForStep(e: Kept, k: nat)
    requires k < |e.placements| && RowsFor(e, k).Ok?
    ensures RowsFor(e, k + 1) == match RowFor(e.placements[k], e)
                                 case Ok(row) => Ok(RowsFor(e, k).value + [row])
                                 case Err(x) => Err(x)
  {
    hide RowFor;
  }

  lemma {:induction false} RowsForSize(e: Kept, k: nat)
    requires k <= |e.placements|
    ensures RowsFor(e, k).Ok? ==> |RowsFor(e, k).value| == k
  {
    hide RowFor;
    if k > 0 {
      RowsForSize(e, k - 1);
    }
  }

  lemma {:induction false} NoFile()
    ensures RowFile([]) == []
  {
  }

  lemma {:induction false} EncodesAs(r: Row)
    requires RowOk(r)
    ensures EncodeRow(r) == Ok(PutRow(r, []))
  {
    hide PutRow;
  }

  // ---------------------------------------------------------------- equal rows

  ghost predicate Distinct<T(!new)>(s: seq<T>) {
    forall i, j | 0 <= i < j < |s| :: s[i] != s[j]
  }

  /** Records are numbered in the order they are kept. */
  ghost predicate Numbered(es: seq<Kept>) {
    forall i, j | 0 <= i < j < |es| :: es[i].ordinal < es[j].ordinal
  }

  /** No decision that left rows names the same placement twice. */
  ghost predicate NoneTwice(es: seq<Kept>, n: nat)
    requires n <= |es|
  {
    forall i | 0 <= i < n :: es[i].payload == 0 || Distinct(es[i].placements)
  }

  lemma {:induction false} RowsForAt(e: Kept, k: nat, i: nat)
    requires i < k <= |e.placements| && RowsFor(e, k).Ok?
    ensures |RowsFor(e, k).value| == k && RowFor(e.placements[i], e) == Ok(RowsFor(e, k).value[i])
  {
    hide RowFor;
    if i < k - 1 {
      RowsForAt(e, k - 1, i);
    } else if k > 1 {
      RowsForAt(e, k - 1, 0);
    }
  }

  lemma {:induction false} RowForInjective(p: Placement, q: Placement, e: Kept)
    requires RowFor(p, e).Ok? && RowFor(p, e) == RowFor(q, e)
    ensures p == q
  {
  }

  lemma {:induction false} KeptRows(e: Kept)
    requires RowsOfKept(e).Ok?
    ensures var rows := RowsOfKept(e).value;
            && (forall i | 0 <= i < |rows| :: rows[i].ordinal == e.ordinal)
            && (Distinct(rows) <==> e.payload == 0 || Distinct(e.placements))
  {
    hide RowsFor, RowFor;
    if e.payload > 0 && e.placements != [] {
      var rows, n := RowsOfKept(e).value, |e.placements|;
      RowsForAt(e, n, 0);
      forall i | 0 <= i < n ensures rows[i].ordinal == e.ordinal {
        RowsForAt(e, n, i);
        OrdinalOf(e.placements[i], e);
      }
      forall i, j | 0 <= i < j < n ensures rows[i] == rows[j] <==> e.placements[i] == e.placements[j] {
        RowsForAt(e, n, i);
        RowsForAt(e, n, j);
        if rows[i] == rows[j] {
          RowForInjective(e.placements[i], e.placements[j], e);
        }
      }
    } else if e.payload > 0 {
      NoRowsFor(e);
    }
  }

  lemma {:induction false} OrdinalOf(p: Placement, e: Kept)
    requires RowFor(p, e).Ok?
    ensures RowFor(p, e).value.ordinal == e.ordinal
  {
  }

  lemma {:induction false} NoRowsFor(e: Kept)
    ensures RowsFor(e, 0) == Ok([])
  {
  }

  /** Rows behind one another are different if they are in each part and their ordinals differ. */
  lemma {:induction false} DistinctConcat(s: seq<Row>, t: seq<Row>)
    requires forall i, j | 0 <= i < |s| && 0 <= j < |t| :: s[i].ordinal < t[j].ordinal
    ensures Distinct(s + t) <==> Distinct(s) && Distinct(t)
  {
    var u := s + t;
    if Distinct(u) {
      forall i, j | 0 <= i < j < |s| ensures s[i] != s[j] {
        assert u[i] == s[i] && u[j] == s[j];
      }
      forall i, j | 0 <= i < j < |t| ensures t[i] != t[j] {
        assert u[|s| + i] == t[i] && u[|s| + j] == t[j];
      }
    }
    if Distinct(s) && Distinct(t) {
      forall i, j | 0 <= i < j < |u| ensures u[i] != u[j] {
        if i < |s| && j >= |s| {
          assert u[i] == s[i] && u[j] == t[j - |s|];
        }
      }
    }
  }

  /** The rows of a journal are pairwise different exactly when no decision names a placement twice. */
  lemma {:induction false} RowsDistinct(es: seq<Kept>, n: nat)
    requires n <= |es| && Numbered(es) && RowsOfAll(es, n).Ok?
    ensures var rows := RowsOfAll(es, n).value;
            && (forall i | 0 <= i < |rows| :: n > 0 && rows[i].ordinal <= es[n - 1].ordinal)
            && (Distinct(rows) <==> NoneTwice(es, n))
  {
    hide RowsOfKept, Distinct;
    if n > 0 {
      RowsDistinct(es, n - 1);
      KeptRows(es[n - 1]);
      DistinctConcat(RowsOfAll(es, n - 1).value, RowsOfKept(es[n - 1]).value);
    } else {
      NothingTwice();
    }
  }

  lemma {:induction false} NothingTwice()
    ensures Distinct<Row>([])
  {
  }

  // ---------------------------------------------------------------- opening the index

  predicate RowLess(a: Row, b: Row) {
    Lexicographic.Less(RowOrder(a), RowOrder(b))
  }

  ghost predicate StrictRows(rows: seq<Row>) {
    forall i, j | 0 <= i < j < |rows| :: RowLess(rows[i], rows[j])
  }

  /** Read the index once and refuse it unless every row is above its predecessor. */
  method AcceptIndex(rows: seq<Row>) returns (ok: bool)
    ensures ok <==> StrictRows(rows)
  {
    hide RowOrder, Lexicographic.Less;
    for n := 0 to |rows|
      invariant StrictRows(rows[..n])
    {
      if n > 0 && !RowLess(rows[n - 1], rows[n]) {
        return false;
      }
      forall i, j | 0 <= i < j < n + 1 ensures RowLess(rows[i], rows[j]) {
        if j < n {
          assert rows[..n][i] == rows[i] && rows[..n][j] == rows[j];
        } else if i < n - 1 {
          assert rows[..n][i] == rows[i] && rows[..n][n - 1] == rows[n - 1];
          Lexicographic.Transitive(RowOrder(rows[i]), RowOrder(rows[n - 1]), RowOrder(rows[n]));
        }
      }
    }
    assert rows[..|rows|] == rows;
    ok := true;
  }

  lemma {:induction false} LessMeans(a: Row, b: Row)
    ensures RowLess(a, b) <==> RowLeq(a, b) && a != b
  {
    hide RowOrder, Lexicographic.Less;
    Lexicographic.Irreflexive(RowOrder(a));
    if RowLess(a, b) {
      Lexicographic.Asymmetric(RowOrder(a), RowOrder(b));
    } else if RowLeq(a, b) {
      RowLeqAntisymmetric(a, b);
    }
  }

  /** Sorted rows are strictly ascending exactly when no two are equal. */
  lemma {:induction false} StrictIsDistinct(rows: seq<Row>)
    requires SortedRows(rows)
    ensures StrictRows(rows) <==> Distinct(rows)
  {
    hide RowLess, RowLeq;
    forall i, j | 0 <= i < j < |rows| ensures RowLess(rows[i], rows[j]) <==> rows[i] != rows[j] {
      LessMeans(rows[i], rows[j]);
    }
  }

  lemma {:induction false} DistinctPermuted(s: seq<Row>, t: seq<Row>)
    requires multiset(s) == multiset(t) && Distinct(t)
    ensures Distinct(s)
  {
    forall i, j | 0 <= i < j < |s| ensures s[i] != s[j] {
      var a, b := TwoPlaces(s, t, i, j);
      assert a < b || b < a;
    }
  }

  lemma {:induction false} RowsToOk(raw: seq<byte>, k: nat)
    requires WIDTH * k <= |raw| && RowsTo(raw, k).Ok?
    ensures forall i | 0 <= i < |RowsTo(raw, k).value| :: RowOk(RowsTo(raw, k).value[i])
  {
    hide DecodeRow, RowOk;
    if k > 0 {
      RowsToOk(raw, k - 1);
      DecodedOk(raw[WIDTH * (k - 1)..WIDTH * k]);
    }
  }

  lemma {:induction false} DecodedOk(b: seq<byte>)
    ensures DecodeRow(b).Ok? ==> RowOk(DecodeRow(b).value)
  {
    hide RowOk, ReadByte, ReadFlag, ReadI64, ReadU64, Take;
  }

  lemma {:induction false} MembersOk(s: seq<Row>, t: seq<Row>)
    requires multiset(s) == multiset(t) && forall i | 0 <= i < |t| :: RowOk(t[i])
    ensures forall i | 0 <= i < |s| :: RowOk(s[i])
  {
    hide RowOk;
    forall i | 0 <= i < |s| ensures RowOk(s[i]) {
      var j := Permutations.Place(s, t, i);
    }
  }

  /** Sort the written rows and open the result, as a query will find it. */
  method SortAndOpen(raw: seq<byte>, entries: nat, fanIn: nat, quota: DiskBudget, ghost base: nat) returns (r: Result<seq<Row>>)
    requires quota.used == base + |raw|
    modifies quota
    ensures r.Ok? ==>
              && RowsOf(raw).Ok? && GoodIndex(r.value) && StrictRows(r.value)
              && multiset(r.value) == multiset(RowsOf(raw).value) && Distinct(RowsOf(raw).value)
    ensures r.Err? ==>
              || !(2 <= entries <= 1_000_000) || !(2 <= fanIn <= 64) || base + 2 * |raw| > quota.maximum
              || RowsOf(raw).Err? || !Distinct(RowsOf(raw).value)
  {
    hide SortedRows, StrictRows, Distinct, RowOk, RowsTo;
    var sorted := Sort(raw, entries, fanIn, quota, base);
    if sorted.Err? {
      return Err(sorted.error);
    }
    var rows := sorted.value.0;
    ghost var written := RowsOf(raw).value;
    StrictIsDistinct(rows);
    RowsToOk(raw, |raw| / WIDTH);
    MembersOk(rows, written);
    var ok := AcceptIndex(rows);
    if !ok {
      if Distinct(written) {
        DistinctPermuted(rows, written);
      }
      return Err(Bad("history_index"));
    }
    DistinctPermuted(written, rows);
    r := Ok(rows);
  }

  // ---------------------------------------------------------------- from decisions to the opened index

  lemma {:induction false} RowFileAppend(s: seq<Row>, t: seq<Row>)
    ensures RowFile(s + t) == RowFile(s) + RowFile(t)
  {
    hide PutRow;
    if t == [] {
      assert s + t == s;
    } else {
      RowFileAppend(s, t[..|t| - 1]);
      assert (s + t)[..|s + t| - 1] == s + t[..|t| - 1];
    }
  }

  ghost predicate AllOk(rows: seq<Row>) {
    forall i | 0 <= i < |rows| :: RowOk(rows[i])
  }

  lemma {:induction false} RowFileReadsTo(rows: seq<Row>, k: nat)
    requires AllOk(rows) && k <= |rows|
    ensures |RowFile(rows)| == WIDTH * |rows| && RowsTo(RowFile(rows), k) == Ok(rows[..k])
  {
    hide RowFile, DecodeRow, RowOk;
    RowFileSize(rows);
    if k > 0 {
      RowFileReadsTo(rows, k - 1);
      RowFileAt(rows, k - 1);
      assert rows[..k] == rows[..k - 1] + [rows[k - 1]];
    }
  }

  /** The written file holds exactly the rows. */
  lemma {:induction false} RowFileReads(rows: seq<Row>)
    requires AllOk(rows)
    ensures RowsOf(RowFile(rows)) == Ok(rows)
  {
    hide RowFile, RowsTo, RowOk;
    RowFileReadsTo(rows, |rows|);
    Multiple(|rows|);
    assert rows[..|rows|] == rows;
  }

  lemma {:induction false} Multiple(n: nat)
    ensures WIDTH * n / WIDTH == n && WIDTH * n % WIDTH == 0
  {
  }

  ghost predicate AllValid(es: seq<Kept>) {
    forall i | 0 <= i < |es| :: es[i].Valid()
  }

  lemma {:induction false} KeptOk(e: Kept)
    requires e.Valid() && RowsOfKept(e).Ok?
    ensures AllOk(RowsOfKept(e).value)
  {
    hide RowsFor, RowFor, RowOk;
    if e.payload > 0 {
      var rows := RowsOfKept(e).value;
      RowsForSize(e, |e.placements|);
      forall i | 0 <= i < |rows| ensures RowOk(rows[i]) {
        RowsForAt(e, |e.placements|, i);
        RowForOk(e.placements[i], e);
      }
    }
  }

  lemma {:induction false} RowsAllOk(es: seq<Kept>, n: nat)
    requires n <= |es| && AllValid(es) && RowsOfAll(es, n).Ok?
    ensures AllOk(RowsOfAll(es, n).value)
  {
    hide RowsOfKept, RowOk;
    if n > 0 {
      RowsAllOk(es, n - 1);
      KeptOk(es[n - 1]);
    }
  }

  /** What holds of the rows of fewer decisions, when the rows of all fit. */
  lemma {:induction false} RowsBelow(es: seq<Kept>, k: nat, n: nat)
    requires k <= n <= |es| && RowsOfAll(es, n).Ok?
    ensures RowsOfAll(es, k).Ok? && |RowsOfAll(es, k).value| <= |RowsOfAll(es, n).value|
  {
    hide RowsOfKept;
    if k < n {
      RowsBelow(es, k, n - 1);
    }
  }

  lemma {:induction false} RowsStep(es: seq<Kept>, k: nat)
    requires k < |es| && RowsOfAll(es, k).Ok?
    ensures RowsOfAll(es, k + 1) == match RowsOfKept(es[k])
                                    case Ok(rows) => Ok(RowsOfAll(es, k).value + rows)
                                    case Err(x) => Err(x)
  {
    hide RowsOfKept;
  }

  /** Disk for every row twice, which the sort may need. */
  ghost predicate NoRoomToSort(es: seq<Kept>, used: nat, maximum: nat) {
    RowsOfAll(es, |es|).Ok? && used + 2 * (WIDTH * |RowsOfAll(es, |es|).value|) > maximum
  }

  /**
   Write the rows of all decisions, sort them and open the index. It opens with exactly those rows,
   and is refused as unsorted only if some decision names a placement twice.
   */
  method BuildIndex(es: seq<Kept>, entries: nat, fanIn: nat, quota: DiskBudget) returns (r: Result<seq<Row>>)
    requires AllValid(es) && Numbered(es)
    modifies quota
    ensures r.Ok? ==>
              && RowsOfAll(es, |es|).Ok? && GoodIndex(r.value) && StrictRows(r.value)
              && multiset(r.value) == multiset(RowsOfAll(es, |es|).value) && NoneTwice(es, |es|)
    ensures r.Err? ==>
              || !(2 <= entries <= 1_000_000) || !(2 <= fanIn <= 64) || NoRoomToSort(es, old(quota.used), quota.maximum)
              || RowsOfAll(es, |es|).Err? || !NoneTwice(es, |es|)
  {
    hide RowsOfKept, RowFile, GoodIndex, StrictRows, Distinct, NoneTwice, RowsOf, RowsOfAll, Numbered, AllOk;
    ghost var base := quota.used;
    var raw: seq<byte> := [];
    ghost var rows: seq<Row> := [];
    NoFile();
    NoDecisions(es);
    for k := 0 to |es|
      invariant RowsOfAll(es, k) == Ok(rows) && raw == RowFile(rows) && quota.used == base + WIDTH * |rows|
    {
      RowsStep(es, k);
      var next := AppendRows(raw, es[k], quota);
      if RowsOfAll(es, |es|).Ok? {
        RowsBelow(es, k + 1, |es|);
      }
      if next.Err? {
        return Err(next.error);
      }
      RowFileAppend(rows, RowsOfKept(es[k]).value);
      raw := next.value;
      rows := rows + RowsOfKept(es[k]).value;
    }
    RowsAllOk(es, |es|);
    RowFileReads(rows);
    FileSize(rows);
    RowsDistinct(es, |es|);
    r := SortAndOpen(raw, entries, fanIn, quota, base);
  }

  lemma {:induction false} NoDecisions(es: seq<Kept>)
    ensures RowsOfAll(es, 0) == Ok([])
  {
  }

  lemma {:induction false} FileSize(rows: seq<Row>)
    requires AllOk(rows)
    ensures |RowFile(rows)| == WIDTH * |rows|
  {
    hide RowOk;
    RowFileSize(rows);
  }

  // ---------------------------------------------------------------- decisions of a run

  /** Every known tuple is sound and its generations carry the digests of their seeds. */
  ghost predicate AllSeeded(known: Known, source: SourceIdentity, c: Config, o: Opaque) {
    forall k | k in known :: known[k].key == k && StateOk(known[k], c) && Seeded(known[k], source, o)
  }

  /** No two generations of one tuple collide. */
  ghost predicate NoCollision(known: Known, source: SourceIdentity, o: Opaque) {
    forall k | k in known && Seeded(known[k], source, o) :: !SeedsCollide(known[k], source, o)
  }

  ghost predicate KnownGrown(before: Known, after: Known) {
    forall k | k in before :: k in after && TupleSafety.Grown(before[k], after[k])
  }

  /** A collision stays: what has grown keeps its seeds. */
  lemma {:induction false} CollisionStays(s: TupleState, t: TupleState, source: SourceIdentity, o: Opaque)
    requires Seeded(s, source, o) && Seeded(t, source, o) && TupleSafety.Grown(s, t) && SeedsCollide(s, source, o)
    ensures SeedsCollide(t, source, o)
  {
    hide EncodeKey, GenerationSeed;
    var i, j :| 0 <= i < j < |s.generations|
      && SeedOf(s, source, o, i) != SeedOf(s, source, o, j) && o.sha256(SeedOf(s, source, o, i)) == o.sha256(SeedOf(s, source, o, j));
    assert Evolved(s.generations[i], t.generations[i]) && Evolved(s.generations[j], t.generations[j]);
    assert SeedOf(t, source, o, i) == SeedOf(s, source, o, i) && SeedOf(t, source, o, j) == SeedOf(s, source, o, j);
  }

  function StateFor(known: Known, key: Key): TupleState {
    if key in known then known[key] else TupleState(key, [])
  }

  lemma {:induction false} StateForOk(known: Known, key: Key, source: SourceIdentity, c: Config, o: Opaque)
    requires AllSeeded(known, source, c, o)
    ensures StateOk(StateFor(known, key), c) && Seeded(StateFor(known, key), source, o) && StateFor(known, key).key == key
  {
    hide Seeded, StateOk;
    StartsOk(key, c);
    FreshSeeded(key, source, o);
  }

  lemma {:induction false} FreshSeeded(key: Key, source: SourceIdentity, o: Opaque)
    ensures Seeded(TupleState(key, []), source, o)
  {
  }

  /** One observation: the tuple's state stays seeded and grown, and distinct identities make distinct placements. */
  lemma {:induction false} ReferenceStep(known: Known, p: TcpInput, source: SourceIdentity, c: Config, o: Opaque)
    requires AllSeeded(known, source, c, o)
    ensures var (after, r) := Reference(known, p, source, c, o);
            && AllSeeded(after, source, c, o) && KnownGrown(known, after) && p.key in after
            && (r.Ok? && !SeedsCollide(after[p.key], source, o) ==> DistinctPlacements(r.value))
  {
    hide Ingest, Seeded, StateOk, SeedsCollide, TupleSafety.Grown, DistinctPlacements, DistinctIds, AtMostOneSelected, NoneSelected, ChangedOnlySelected;
    var s := StateFor(known, p.key);
    var t := Ingest(s, p, source, c, o).0;
    StateForOk(known, p.key, source, c, o);
    IngestSafe(s, p, source, c, o);
    IngestSeeded(s, p, source, c, o);
    DistinctUnlessCollision(t, source, o);
    GrownKey(s, t);
    var after := known[p.key := t];
    forall k | k in known ensures TupleSafety.Grown(known[k], after[k]) {
      GrownReflexive(known[k]);
    }
  }

  lemma {:induction false} GrownKey(s: TupleState, t: TupleState)
    requires TupleSafety.Grown(s, t)
    ensures t.key == s.key
  {
    hide Evolved;
  }

  lemma {:induction false} KnownGrownTransitive(a: Known, b: Known, d: Known)
    requires KnownGrown(a, b) && KnownGrown(b, d)
    ensures KnownGrown(a, d)
  {
    hide TupleSafety.Grown;
    forall k | k in a ensures k in d && TupleSafety.Grown(a[k], d[k]) {
      GrownTransitive(a[k], b[k], d[k]);
    }
  }

  /** If the tuples a step leaves are free of collisions, so were those before it. */
  lemma {:induction false} NoCollisionBefore(before: Known, after: Known, source: SourceIdentity, c: Config, o: Opaque)
    requires AllSeeded(before, source, c, o) && AllSeeded(after, source, c, o) && KnownGrown(before, after) && NoCollision(after, source, o)
    ensures NoCollision(before, source, o)
  {
    hide Seeded, SeedsCollide, TupleSafety.Grown, StateOk;
    forall k | k in before ensures !SeedsCollide(before[k], source, o) {
      assert TupleSafety.Grown(before[k], after[k]);
      if SeedsCollide(before[k], source, o) {
        CollisionStays(before[k], after[k], source, o);
      }
    }
  }

  /** Over a whole run without collisions every decision's placements are pairwise distinct. */
  lemma {:induction false} RunDecides(inputs: seq<TcpInput>, source: SourceIdentity, c: Config, o: Opaque, n: nat)
    requires n <= |inputs| && ReferenceRun(map[], inputs, source, c, o, n).Some?
    ensures var (known, ds) := ReferenceRun(map[], inputs, source, c, o, n).value;
            && |ds| == n && AllSeeded(known, source, c, o)
            && (NoCollision(known, source, o) ==> forall i | 0 <= i < n :: DistinctPlacements(ds[i]))
  {
    hide Reference, Seeded, StateOk, SeedsCollide, DistinctPlacements, KnownGrown;
    if n > 0 {
      RunDecides(inputs, source, c, o, n - 1);
      var before := ReferenceRun(map[], inputs, source, c, o, n - 1).value.0;
      ReferenceStep(before, inputs[n - 1], source, c, o);
      var after := Reference(before, inputs[n - 1], source, c, o).0;
      if NoCollision(after, source, o) {
        NoCollisionBefore(before, after, source, c, o);
      }
    }
  }

  /** The decisions of a run, as they are kept. */
  ghost predicate Keeps(es: seq<Kept>, ds: seq<Decision>) {
    |es| == |ds| && forall i | 0 <= i < |es| :: es[i].placements == ds[i].placements
  }

  lemma {:induction false} DistinctKept(d: Decision)
    requires DistinctPlacements(d)
    ensures Distinct(d.placements)
  {
  }

  /**
   In a run without collisions no decision names a placement twice, so the index of the run opens
   whenever its rows are within range and the disk holds them.
   */
  lemma {:induction false} RunPlacesOnce(inputs: seq<TcpInput>, source: SourceIdentity, c: Config, o: Opaque, es: seq<Kept>)
    requires ReferenceRun(map[], inputs, source, c, o, |inputs|).Some?
    requires Keeps(es, ReferenceRun(map[], inputs, source, c, o, |inputs|).value.1)
    requires NoCollision(ReferenceRun(map[], inputs, source, c, o, |inputs|).value.0, source, o)
    ensures NoneTwice(es, |es|)
  {
    hide ReferenceRun, NoCollision, Distinct, DistinctPlacements;
    RunDecides(inputs, source, c, o, |inputs|);
    var ds := ReferenceRun(map[], inputs, source, c, o, |inputs|).value.1;
    forall i | 0 <= i < |es| ensures Distinct(es[i].placements) {
      DistinctKept(ds[i]);
    }
  }
}
