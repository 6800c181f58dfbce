/** Index rows: one placement of one observation, in the order the range index is sorted by. */
module RowIndex {
  import opened Common
  import opened Codec
  import opened HistoryModel
  import opened TupleStates
  import opened TupleCodec
  import opened Lexicographic

  const WIDTH: nat := 112

  const ROW_ERROR: Error := Bad("history_index")

  datatype Row = Row(
    generation: Digest,
    direction: u8,
    selected: bool,
    start: i64,
    end: i64,
    recordOffset: u64,
    recordDigest: Digest,
    ordinal: u64)

  /** What an index entry must satisfy; its interval is never empty and never longer than a segment. */
  predicate RowOk(r: Row) {
    r.direction <= 1 && r.start < r.end && r.end - r.start <= 65535 && r.ordinal != 0
  }

  // ---------------------------------------------------------------- order

  /** Generation, direction and start: what a lookup compares. */
  function PlaceOrder(generation: Digest, direction: u8, start: i64): seq<int> {
    generation + [direction, start]
  }

  /** The fields behind the place, in comparison order. */
  function RestOrder(r: Row): seq<int> {
    [r.end, r.ordinal, r.recordOffset, if r.selected then 1 else 0] + r.recordDigest
  }

  function RowOrder(r: Row): seq<int> {
    PlaceOrder(r.generation, r.direction, r.start) + RestOrder(r)
  }

  predicate RowLeq(a: Row, b: Row) {
    Leq(RowOrder(a), RowOrder(b))
  }

  ghost predicate SortedRows(rows: seq<Row>) {
    forall i, j | 0 <= i < j < |rows| :: RowLeq(rows[i], rows[j])
  }

  lemma {:induction false} LessByParts(a: seq<int>, b: seq<int>, s: seq<int>, t: seq<int>)
    requires |a| == |b|
    ensures Less(a + s, b + t) <==> Less(a, b) || (a == b && Less(s, t))
  {
    if a == [] {
      assert a + s == s && b + t == t;
    } else {
      LessByParts(a[1..], b[1..], s, t);
      assert (a + s)[1..] == a[1..] + s && (b + t)[1..] == b[1..] + t;
      assert a == [a[0]] + a[1..] && b == [b[0]] + b[1..];
    }
  }

  lemma {:induction false} LessPair(x: int, y: int, u: int, v: int)
    ensures Less([x, y], [u, v]) <==> x < u || (x == u && y < v)
  {
    assert [x, y][1..] == [y] && [u, v][1..] == [v];
    assert [y][1..] == [] && [v][1..] == [];
    assert Less([y], [v]) <==> y < v;
  }

  /** Places compare by generation, then direction, then start. */
  lemma {:induction false} PlaceLess(g: Digest, d: u8, s: i64, h: Digest, e: u8, t: i64)
    ensures Less(PlaceOrder(g, d, s), PlaceOrder(h, e, t)) <==>
              Less(g, h) || (g == h && (d < e || (d == e && s < t)))
  {
    hide Less;
    LessByParts(g, h, [d, s], [e, t]);
    LessPair(d, s, e, t);
  }

  /** The order of rows respects the order of their places. */
  lemma {:induction false} PlaceMonotone(a: Row, b: Row)
    requires RowLeq(a, b)
    ensures Leq(PlaceOrder(a.generation, a.direction, a.start), PlaceOrder(b.generation, b.direction, b.start))
  {
    hide Less;
    LessByParts(PlaceOrder(b.generation, b.direction, b.start), PlaceOrder(a.generation, a.direction, a.start),
                RestOrder(b), RestOrder(a));
  }

  lemma {:induction false} RowLeqTransitive(a: Row, b: Row, c: Row)
    requires RowLeq(a, b) && RowLeq(b, c)
    ensures RowLeq(a, c)
  {
    hide RowOrder, Less;
    LeqTransitive(RowOrder(a), RowOrder(b), RowOrder(c));
  }

  lemma {:induction false} RowLeqTotal(a: Row, b: Row)
    ensures RowLeq(a, b) || RowLeq(b, a)
  {
    hide RowOrder;
    if Less(RowOrder(b), RowOrder(a)) {
      Asymmetric(RowOrder(b), RowOrder(a));
    }
  }

  /** Rows that compare equal are equal, so a sorted arrangement is unique. */
  lemma {:induction false} RowLeqAntisymmetric(a: Row, b: Row)
    requires RowLeq(a, b) && RowLeq(b, a)
    ensures a == b
  {
    hide Less;
    Total(RowOrder(a), RowOrder(b));
    var s, t := RowOrder(a), RowOrder(b);
    assert s[..32] == a.generation && t[..32] == b.generation;
    assert s[32] == a.direction && s[33] == a.start && s[34] == a.end && s[35] == a.ordinal && s[36] == a.recordOffset;
    assert t[32] == b.direction && t[33] == b.start && t[34] == b.end && t[35] == b.ordinal && t[36] == b.recordOffset;
    assert s[37] == (if a.selected then 1 else 0) && t[37] == (if b.selected then 1 else 0);
    assert s[38..] == a.recordDigest && t[38..] == b.recordDigest;
  }

  // ---------------------------------------------------------------- codec

  function Zeros(n: nat): (b: seq<byte>)
    ensures |b| == n
  {
    seq(n, i => 0)
  }

  function PutRow(r: Row, rest: seq<byte>): seq<byte> {
    PutRaw(r.generation, PutNumber(r.direction, 1, PutFlag(r.selected, PutRaw(Zeros(6), PutI64(r.start, PutI64(r.end,
      PutNumber(r.recordOffset, 8, PutRaw(r.recordDigest, PutNumber(r.ordinal, 8, PutNumber(0, 8, rest))))))))))
  }

  function EncodeRow(r: Row): Result<seq<byte>> {
    if RowOk(r) then Ok(PutRow(r, [])) else Err(ROW_ERROR)
  }

  function DecodeRow(b: seq<byte>): Result<Row> {
    hide ReadByte, ReadFlag, ReadI64, ReadU64;
    if |b| != WIDTH then Err(ROW_ERROR)
    else
      var (generation, b1) :- Take(b, 32);
      var (direction, b2) :- ReadByte(b1);
      var (selected, b3) :- ReadFlag(b2);
      var (reserved, b4) :- Take(b3, 6);
      if reserved != Zeros(6) then Err(ROW_ERROR)
      else
        var (start, b5) :- ReadI64(b4);
        var (end, b6) :- ReadI64(b5);
        var (recordOffset, b7) :- ReadU64(b6);
        var (recordDigest, b8) :- Take(b7, 32);
        var (ordinal, b9) :- ReadU64(b8);
        var (tail, b10) :- ReadU64(b9);
        if tail != 0 then Err(ROW_ERROR)
        else
          var r :- Finish(Row(generation, direction, selected, start, end, recordOffset, recordDigest, ordinal), b10);
          if RowOk(r) then Ok(r) else Err(ROW_ERROR)
  }

  function ReadByte(b: seq<byte>): Read<u8> {
    var (v, rest) :- ReadNumber(b, 1);
    FromLeBound(b[..1]);
    Powers();
    Ok((v, rest))
  }

  lemma {:induction false} U8RoundTrip(v: u8, rest: seq<byte>)
    ensures ReadByte(PutNumber(v, 1, rest)) == Ok((v, rest)) && |PutNumber(v, 1, rest)| == 1 + |rest|
  {
    hide PutNumber, ReadNumber, Power;
    ByteRoundTrip(v, rest);
  }

  /** A valid row fills exactly one entry and reads back as itself. */
  lemma {:induction false} RowRoundTrip(r: Row)
    ensures EncodeRow(r).Ok? <==> RowOk(r)
    ensures EncodeRow(r).Ok? ==> |EncodeRow(r).value| == WIDTH && DecodeRow(EncodeRow(r).value) == Ok(r)
  {
    hide PutRaw, Take, PutNumber, ReadByte, PutFlag, ReadFlag, PutI64, ReadI64, ReadU64;
    if RowOk(r) {
      var e9 := PutNumber(0, 8, []);
      U64RoundTrip(0, []);
      var e8 := PutNumber(r.ordinal, 8, e9);
      U64RoundTrip(r.ordinal, e9);
      var e7 := PutRaw(r.recordDigest, e8);
      RawRoundTrip(r.recordDigest, e8);
      var e6 := PutNumber(r.recordOffset, 8, e7);
      U64RoundTrip(r.recordOffset, e7);
      var e5 := PutI64(r.end, e6);
      I64RoundTrip(r.end, e6);
      var e4 := PutI64(r.start, e5);
      I64RoundTrip(r.start, e5);
      var e3 := PutRaw(Zeros(6), e4);
      RawRoundTrip(Zeros(6), e4);
      var e2 := PutFlag(r.selected, e3);
      FlagRoundTrip(r.selected, e3);
      U8RoundTrip(r.direction, e2);
      RawRoundTrip(r.generation, PutNumber(r.direction, 1, e2));
    }
  }

  /** An index file: its rows one after the other. */
  function RowFile(rows: seq<Row>): seq<byte> {
    if rows == [] then [] else RowFile(rows[..|rows| - 1]) + PutRow(rows[|rows| - 1], [])
  }

  lemma {:induction false} RowFileSize(rows: seq<Row>)
    requires forall i | 0 <= i < |rows| :: RowOk(rows[i])
    ensures |RowFile(rows)| == WIDTH * |rows|
  {
    hide PutRow;
    if rows != [] {
      RowFileSize(rows[..|rows| - 1]);
      RowRoundTrip(rows[|rows| - 1]);
    }
  }

  /** Entry n of a file stands at byte n * WIDTH. */
  lemma {:induction false} RowFileAt(rows: seq<Row>, n: nat)
    requires n < |rows| && forall i | 0 <= i < |rows| :: RowOk(rows[i])
    ensures WIDTH * n + WIDTH <= |RowFile(rows)|
    ensures DecodeRow(RowFile(rows)[WIDTH * n..WIDTH * n + WIDTH]) == Ok(rows[n])
  {
    hide PutRow, DecodeRow;
    var init, last := rows[..|rows| - 1], rows[|rows| - 1];
    RowFileSize(rows);
    RowFileSize(init);
    RowRoundTrip(last);
    if n < |init| {
      RowFileAt(init, n);
      assert RowFile(rows)[WIDTH * n..WIDTH * n + WIDTH] == RowFile(init)[WIDTH * n..WIDTH * n + WIDTH];
    } else {
      assert RowFile(rows)[WIDTH * n..WIDTH * n + WIDTH] == PutRow(last, []);
    }
  }
}
