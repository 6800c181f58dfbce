/** The borrowed and the streaming decoder: the same records, whatever the reads look like. */
module CaptureParity {
  import opened Common
  import opened CaptureModel

  ghost predicate Prefix(b: seq<byte>, x: seq<byte>) {
    |b| <= |x| && x[..|b|] == b
  }

  // ---------------------------------------------------------------- more input changes no decision

  lemma {:induction false} SameHead(b: seq<byte>, x: seq<byte>, n: nat)
    requires Prefix(b, x) && n <= |b|
    ensures x[..n] == b[..n]
  {
    assert x[..|b|][..n] == x[..n];
  }

  lemma {:induction false} SameOrder(b: seq<byte>, x: seq<byte>)
    requires Prefix(b, x) && 12 <= |b|
    ensures OrderMagic(b) == OrderMagic(x)
  {
    SameHead(b, x, 12);
    assert b[..12][8..12] == b[8..12] && x[..12][8..12] == x[8..12];
  }

  lemma {:induction false} SameU32(e: Endian, b: seq<byte>, x: seq<byte>, p: nat)
    requires Prefix(b, x) && p + 4 <= |b|
    ensures U32(e, b, p) == U32(e, x, p)
  {
    assert forall i | 0 <= i < |b| :: x[..|b|][i] == x[i];
  }

  /** Once a block's need is met or refused, more input does not change it. */
  lemma {:induction false} BlockNeedStable(d: Decoder, b: seq<byte>, x: seq<byte>, limits: Limits)
    requires Prefix(b, x)
    ensures var r := BlockNeed(d, b, limits);
            r.Err? || r.value <= |b| ==> BlockNeed(d, x, limits) == r
  {
    hide U32, OrderMagic;
    if |b| >= 8 {
      SameHead(b, x, 4);
      forall e: Endian ensures U32(e, b, 4) == U32(e, x, 4) {
        SameU32(e, b, x, 4);
      }
      if |b| >= 12 {
        SameOrder(b, x);
      }
    }
  }

  lemma {:induction false} RequiredStable(d: Decoder, b: seq<byte>, x: seq<byte>, offset: nat, limits: Limits)
    requires Prefix(b, x) && offset + |x| <= U64_MAX
    ensures var r := Required(d, b, offset, limits);
            r.Err? || r.value <= |b| ==> Required(d, x, offset, limits) == r
  {
    hide U32, BlockNeed, LegacyMagic;
    BlockNeedStable(d, b, x, limits);
    if |b| >= 4 {
      SameHead(b, x, 4);
    }
    if |b| >= 16 {
      SameU32(d.endian, b, x, 8);
    }
  }

  /** Reading no further than asked never reads past the record. */
  lemma {:induction false} BlockNeedGrows(d: Decoder, b: seq<byte>, c: seq<byte>, limits: Limits)
    requires Prefix(b, c) && BlockNeed(d, b, limits).Ok? && |b| < BlockNeed(d, b, limits).value && |c| <= BlockNeed(d, b, limits).value
    ensures BlockNeed(d, c, limits).Ok? ==> |c| <= BlockNeed(d, c, limits).value
  {
    hide U32, OrderMagic;
    if |b| >= 8 {
      SameHead(b, c, 4);
      forall e: Endian ensures U32(e, b, 4) == U32(e, c, 4) {
        SameU32(e, b, c, 4);
      }
      if |b| >= 12 {
        SameOrder(b, c);
      }
    }
  }

  lemma {:induction false} RequiredGrows(d: Decoder, b: seq<byte>, c: seq<byte>, offset: nat, limits: Limits)
    requires Prefix(b, c) && Required(d, b, offset, limits).Ok?
    requires |b| < Required(d, b, offset, limits).value && |c| <= Required(d, b, offset, limits).value
    ensures Required(d, c, offset, limits).Ok? ==> |c| <= Required(d, c, offset, limits).value
  {
    hide U32, BlockNeed, LegacyMagic;
    BlockNeedSmall(d, c, limits);
    if |b| >= 4 {
      SameHead(b, c, 4);
    }
    if |b| >= 16 {
      SameU32(d.endian, b, c, 8);
    }
    if BlockNeed(d, b, limits).Ok? && |b| < BlockNeed(d, b, limits).value && |c| <= BlockNeed(d, b, limits).value {
      BlockNeedGrows(d, b, c, limits);
    }
  }

  lemma {:induction false} BlockNeedSmall(d: Decoder, c: seq<byte>, limits: Limits)
    ensures BlockNeed(d, c, limits).Ok? ==> BlockNeed(d, c, limits).value >= 8
  {
    hide U32, OrderMagic;
  }

  lemma {:induction false} NothingRequired(d: Decoder, offset: nat, limits: Limits)
    requires offset <= U64_MAX
    ensures Required(d, [], offset, limits).Ok? && Required(d, [], offset, limits).value > 0
  {
  }

  lemma {:induction false} RequiredPositive(d: Decoder, b: seq<byte>, offset: nat, limits: Limits)
    ensures Required(d, b, offset, limits).Ok? ==> Required(d, b, offset, limits).value > 0
  {
    hide U32, LegacyMagic, BlockNeed;
    BlockNeedSmall(d, b, limits);
  }

  /** With enough input for the record, the rest of the input does not matter. */
  lemma {:induction false} DecodeStable(d: Decoder, b: seq<byte>, x: seq<byte>, offset: nat, s: Setup)
    requires Prefix(b, x) && offset + |x| <= U64_MAX
    requires Required(d, b, offset, s.limits).Ok? && Required(d, b, offset, s.limits).value <= |b|
    ensures Decode(d, x, offset, s) == Decode(d, b, offset, s)
    ensures Decode(d, b, offset, s).Ok? ==>
              Decode(d, b, offset, s).value.Got?
              && Decode(d, b, offset, s).value.record.raw == b[..Required(d, b, offset, s.limits).value]
  {
    hide Required, Parse;
    RequiredStable(d, b, x, offset, s.limits);
    SameHead(b, x, Required(d, b, offset, s.limits).value);
  }

  // ---------------------------------------------------------------- one step

  datatype Step = Item(next: Decoder, record: Record) | EndOfInput | Failure

  /** What the next record is, given all the input that is left. */
  function NextStep(d: Decoder, x: seq<byte>, offset: nat, s: Setup): Step {
    if x == [] then (if Finish(d, offset).None? then EndOfInput else Failure)
    else
      match Decode(d, x, offset, s)
      case Err(_) => Failure
      case Ok(NeedMore(_)) => Failure
      case Ok(Got(next, record)) => Item(next, record)
  }

  lemma {:induction false} ItemRaw(d: Decoder, x: seq<byte>, offset: nat, s: Setup)
    ensures NextStep(d, x, offset, s).Item? ==>
              var raw := NextStep(d, x, offset, s).record.raw;
              0 < |raw| <= |x| && x[..|raw|] == raw && NextStep(d, x, offset, s).record.offset == offset
  {
    hide Required, Parse;
    RequiredPositive(d, x, offset, s.limits);
  }

  /** All records up to the end or the first failure. */
  function Records(d: Decoder, x: seq<byte>, offset: nat, s: Setup): (seq<Record>, bool)
    decreases |x|
  {
    match NextStep(d, x, offset, s)
    case EndOfInput => ([], true)
    case Failure => ([], false)
    case Item(next, record) =>
      ItemRaw(d, x, offset, s);
      var (rest, clean) := Records(next, x[|record.raw|..], offset + |record.raw|, s);
      ([record] + rest, clean)
  }

  // ---------------------------------------------------------------- the two readers

  class CaptureIter {
    const data: seq<byte>
    const setup: Setup
    var position: nat
    var decoder: Decoder
    var terminal: bool

    ghost predicate Valid()
      reads this
    {
      position <= |data|
    }

    constructor (data: seq<byte>, setup: Setup)
      ensures Valid() && this.data == data && this.setup == setup && position == 0 && decoder == START && !terminal
    {
      this.data := data;
      this.setup := setup;
      this.position := 0;
      this.decoder := START;
      this.terminal := false;
    }

    method Next() returns (r: Option<Result<Record>>)
      requires Valid() && !terminal
      modifies this
      ensures Valid()
      ensures match NextStep(old(decoder), data[old(position)..], old(position), setup)
              case EndOfInput => r == None && terminal
              case Failure => r.Some? && r.value.Err? && terminal
              case Item(next, record) =>
                r == Some(Ok(record)) && !terminal && decoder == next && position == old(position) + |record.raw|
    {
      hide Decode, Finish;
      var rest := data[position..];
      ItemRaw(decoder, rest, position, setup);
      if position == |data| {
        terminal := true;
        var problem := Finish(decoder, position);
        return if problem.Some? then Some(Err(problem.value)) else None;
      }
      match Decode(decoder, rest, position, setup) {
        case Err(e) =>
          terminal := true;
          r := Some(Err(e));
        case Ok(NeedMore(_)) =>
          terminal := true;
          r := Some(Err(Error(Truncated, "record")));
        case Ok(Got(next, record)) =>
          decoder := next;
          position := position + |record.raw|;
          r := Some(Ok(record));
      }
    }
  }

  /** What the operating system does with a read: an interruption, or at most this many bytes. */
  datatype Read = Interrupted | UpTo(size: nat)

  class CaptureReader {
    const data: seq<byte>
    const schedule: seq<Read>
    const setup: Setup
    var turn: nat
    var at: nat
    var decoder: Decoder
    var buffer: seq<byte>
    var offset: nat
    var terminal: bool

    ghost predicate Valid()
      reads this
    {
      at == offset <= |data| <= U64_MAX && |data| <= setup.limits.maxInputBytes && turn <= |schedule|
    }

    /** A source within the size limit, read as the schedule says and in full after it. */
    constructor (data: seq<byte>, schedule: seq<Read>, setup: Setup)
      requires |data| <= setup.limits.maxInputBytes && |data| <= U64_MAX
      ensures Valid() && this.data == data && this.setup == setup && offset == 0 && decoder == START && !terminal
    {
      this.data := data;
      this.schedule := schedule;
      this.setup := setup;
      this.turn := 0;
      this.at := 0;
      this.decoder := START;
      this.buffer := [];
      this.offset := 0;
      this.terminal := false;
    }

    /** One read of at most count bytes; no bytes only at the end of the source. */
    method ReadSome(count: nat) returns (r: Option<seq<byte>>)
      requires 0 < count && at <= |data| && turn <= |schedule|
      modifies this`turn, this`at
      ensures at <= |data| && turn <= |schedule|
      ensures r.None? ==> turn > old(turn) && at == old(at)
      ensures r.Some? ==>
                && turn >= old(turn) && at == old(at) + |r.value| && |r.value| <= count && r.value == data[old(at)..at]
                && (r.value == [] <==> old(at) == |data|)
    {
      var n := Min(count, |data| - at);
      if turn < |schedule| {
        turn := turn + 1;
        if schedule[turn - 1].Interrupted? {
          return None;
        }
        n := Min(n, Max(1, schedule[turn - 1].size));
      }
      at := at + n;
      r := Some(data[at - n..at]);
    }

    /** Collect one record; however short or interrupted the reads, it is the next one of the source. */
    method ReadOne() returns (r: Result<Option<Record>>)
      requires Valid() && !terminal
      modifies this
      ensures match NextStep(old(decoder), data[old(offset)..], old(offset), setup)
              case EndOfInput => r == Ok(None) && terminal
              case Failure => r.Err?
              case Item(next, record) =>
                Valid() && r == Ok(Some(record)) && !terminal && decoder == next && offset == old(offset) + |record.raw|
    {
      hide Required, Decode, Finish, NextStep;
      buffer := [];
      ghost var x := data[offset..];
      ghost var d := decoder;
      NothingRequired(decoder, offset, setup.limits);
      while true
        invariant decoder == d && offset == old(offset) && !terminal && turn <= |schedule|
        invariant at == offset + |buffer| <= |data| && Prefix(buffer, x)
        invariant Required(d, buffer, offset, setup.limits).Ok? ==> |buffer| <= Required(d, buffer, offset, setup.limits).value
        decreases |schedule| - turn, |data| - at
      {
        var need := Required(decoder, buffer, offset, setup.limits);
        RequiredStable(d, buffer, x, offset, setup.limits);
        if need.Err? {
          FailsEarly(d, buffer, x, offset, setup);
          return Err(need.error);
        }
        if |buffer| >= need.value {
          DecodeStable(d, buffer, x, offset, setup);
          RequiredPositive(d, buffer, offset, setup.limits);
          StepIs(d, x, offset, setup);
          match Decode(decoder, buffer, offset, setup) {
            case Err(e) =>
              return Err(e);
            case Ok(NeedMore(_)) =>
              return Err(Error(Invariant, "decoder"));
            case Ok(Got(next, record)) =>
              decoder := next;
              offset := offset + |record.raw|;
              return Ok(Some(record));
          }
        }
        var part := ReadSome(Min(need.value - |buffer|, 8192));
        if part.None? {
          continue;
        }
        if part.value == [] {
          assert buffer == x;
          terminal := true;
          StepIs(d, x, offset, setup);
          if buffer == [] {
            var problem := Finish(decoder, offset);
            return if problem.Some? then Err(problem.value) else Ok(None);
          }
          FailsShort(d, x, offset, setup);
          return Err(Error(Truncated, "record"));
        }
        if at > setup.limits.maxInputBytes {
          return Err(Limit("input_bytes"));
        }
        ghost var before := buffer;
        buffer := buffer + part.value;
        assert buffer == data[offset..at] && Prefix(buffer, x);
        assert Prefix(before, buffer);
        RequiredGrows(d, before, buffer, offset, setup.limits);
      }
    }

    method NextRecord() returns (r: Result<Option<Record>>)
      requires Valid() && !terminal
      modifies this
      ensures match NextStep(old(decoder), data[old(offset)..], old(offset), setup)
              case EndOfInput => r == Ok(None) && terminal
              case Failure => r.Err? && terminal
              case Item(next, record) =>
                Valid() && r == Ok(Some(record)) && !terminal && decoder == next && offset == old(offset) + |record.raw|
    {
      hide NextStep;
      r := ReadOne();
      if r.Err? {
        terminal := true;
      }
    }
  }

  lemma {:induction false} StepIs(d: Decoder, x: seq<byte>, offset: nat, s: Setup)
    ensures x == [] ==> NextStep(d, x, offset, s) == (if Finish(d, offset).None? then EndOfInput else Failure)
    ensures x != [] ==>
              var r := Decode(d, x, offset, s);
              && (r.Err? ==> NextStep(d, x, offset, s) == Failure)
              && (r.Ok? && r.value.NeedMore? ==> NextStep(d, x, offset, s) == Failure)
              && (r.Ok? && r.value.Got? ==> NextStep(d, x, offset, s) == Item(r.value.next, r.value.record))
  {
    hide Decode, Finish;
  }

  lemma {:induction false} FailsEarly(d: Decoder, b: seq<byte>, x: seq<byte>, offset: nat, s: Setup)
    requires Prefix(b, x) && offset + |x| <= U64_MAX && Required(d, b, offset, s.limits).Err?
    ensures NextStep(d, x, offset, s) == Failure
  {
    hide Required, Parse, Finish;
    RequiredStable(d, b, x, offset, s.limits);
    NothingRequired(d, offset, s.limits);
    assert b != [];
  }

  lemma {:induction false} FailsShort(d: Decoder, x: seq<byte>, offset: nat, s: Setup)
    requires x != [] && Required(d, x, offset, s.limits).Ok? && |x| < Required(d, x, offset, s.limits).value
    ensures NextStep(d, x, offset, s) == Failure
  {
    hide Required, Parse, Finish;
  }

  // ---------------------------------------------------------------- whole captures

  /** Decode a borrowed input to its end. */
  method IterateAll(data: seq<byte>, setup: Setup) returns (records: seq<Record>, clean: bool)
    ensures (records, clean) == Records(START, data, 0, setup)
  {
    hide NextStep;
    var it := new CaptureIter(data, setup);
    records := [];
    assert data[0..] == data;
    ghost var all := Records(START, data, 0, setup);
    assert [] + all.0 == all.0;
    while true
      invariant fresh(it) && it.Valid() && !it.terminal && it.data == data && it.setup == setup
      invariant all == (records + Records(it.decoder, data[it.position..], it.position, setup).0,
                        Records(it.decoder, data[it.position..], it.position, setup).1)
      decreases |data| - it.position
    {
      assert records + [] == records;
      ghost var d, p := it.decoder, it.position;
      ItemRaw(d, data[p..], p, setup);
      RecordsStep(d, data, p, setup);
      var r := it.Next();
      match r {
        case None =>
          return records, true;
        case Some(Err(_)) =>
          return records, false;
        case Some(Ok(record)) =>
          Regroup(records, record, Records(it.decoder, data[it.position..], it.position, setup).0);
          records := records + [record];
      }
    }
  }

  /** Decode a source to its end through any schedule of short and interrupted reads. */
  method ReadAll(data: seq<byte>, schedule: seq<Read>, setup: Setup) returns (records: seq<Record>, clean: bool)
    requires |data| <= setup.limits.maxInputBytes && |data| <= U64_MAX
    ensures (records, clean) == Records(START, data, 0, setup)
  {
    hide NextStep;
    var reader := new CaptureReader(data, schedule, setup);
    records := [];
    assert data[0..] == data;
    ghost var all := Records(START, data, 0, setup);
    assert [] + all.0 == all.0;
    while true
      invariant fresh(reader) && reader.Valid() && !reader.terminal && reader.data == data && reader.setup == setup
      invariant all == (records + Records(reader.decoder, data[reader.offset..], reader.offset, setup).0,
                        Records(reader.decoder, data[reader.offset..], reader.offset, setup).1)
      decreases |data| - reader.offset
    {
      assert records + [] == records;
      ghost var d, p := reader.decoder, reader.offset;
      ItemRaw(d, data[p..], p, setup);
      RecordsStep(d, data, p, setup);
      var r := reader.NextRecord();
      match r {
        case Ok(None) =>
          return records, true;
        case Err(_) =>
          return records, false;
        case Ok(Some(record)) =>
          Regroup(records, record, Records(reader.decoder, data[reader.offset..], reader.offset, setup).0);
          records := records + [record];
      }
    }
  }

  lemma {:induction false} RecordsStep(d: Decoder, data: seq<byte>, p: nat, s: Setup)
    requires p <= |data|
    ensures match NextStep(d, data[p..], p, s)
            case EndOfInput => Records(d, data[p..], p, s) == ([], true)
            case Failure => Records(d, data[p..], p, s) == ([], false)
            case Item(next, record) =>
              p + |record.raw| <= |data| &&
              Records(d, data[p..], p, s)
              == ([record] + Records(next, data[p + |record.raw|..], p + |record.raw|, s).0,
                  Records(next, data[p + |record.raw|..], p + |record.raw|, s).1)
  {
    hide NextStep;
    ItemRaw(d, data[p..], p, s);
    match NextStep(d, data[p..], p, s) {
      case EndOfInput =>
      case Failure =>
      case Item(next, record) =>
        assert data[p..][|record.raw|..] == data[p + |record.raw|..];
    }
  }

  lemma {:induction false} RecordsUnfold(d: Decoder, raw: seq<byte>, rest: seq<byte>, offset: nat, s: Setup)
    requires NextStep(d, raw + rest, offset, s).Item? && NextStep(d, raw + rest, offset, s).record.raw == raw
    ensures var step := NextStep(d, raw + rest, offset, s);
            Records(d, raw + rest, offset, s)
            == ([step.record] + Records(step.next, rest, offset + |raw|, s).0, Records(step.next, rest, offset + |raw|, s).1)
  {
    hide NextStep;
    ItemRaw(d, raw + rest, offset, s);
    assert (raw + rest)[|raw|..] == rest;
  }

  lemma {:induction false} Regroup(a: seq<Record>, r: Record, b: seq<Record>)
    ensures a + ([r] + b) == (a + [r]) + b
  {
  }

  // ---------------------------------------------------------------- what a clean end means

  function Raws(records: seq<Record>): seq<byte> {
    if records == [] then [] else records[0].raw + Raws(records[1..])
  }

  /** On a clean end the records are the input, byte for byte. */
  lemma {:induction false} RawsAreInput(d: Decoder, x: seq<byte>, offset: nat, s: Setup)
    ensures Records(d, x, offset, s).1 ==> Raws(Records(d, x, offset, s).0) == x
    decreases |x|
  {
    hide NextStep;
    ItemRaw(d, x, offset, s);
    EndIsEmpty(d, x, offset, s);
    if NextStep(d, x, offset, s).Item? {
      var next, record := NextStep(d, x, offset, s).next, NextStep(d, x, offset, s).record;
      var n := |record.raw|;
      RawsAreInput(next, x[n..], offset + n, s);
      var rest := Records(next, x[n..], offset + n, s).0;
      assert ([record] + rest)[1..] == rest;
      assert x == x[..n] + x[n..];
    }
  }

  lemma {:induction false} EndIsEmpty(d: Decoder, x: seq<byte>, offset: nat, s: Setup)
    ensures NextStep(d, x, offset, s).EndOfInput? ==> x == []
  {
    hide Decode;
  }

  /** Packets are numbered in the order they come, from the decoder's next frame on. */
  ghost predicate Numbered(records: seq<Record>, frame: nat) {
    records == [] ||
    (if records[0].kind.Packet? then records[0].kind.meta.frame == frame && Numbered(records[1..], frame + 1)
     else Numbered(records[1..], frame))
  }

  lemma {:induction false} ParseFrames(d: Decoder, raw: seq<byte>, offset: nat, s: Setup)
    ensures var r := Parse(d, raw, offset, s);
            r.Ok? ==> if r.value.kind.Packet? then r.value.kind.meta.frame == d.nextFrame && r.value.next.nextFrame == d.nextFrame + 1
                      else r.value.next.nextFrame == d.nextFrame
  {
    hide U16, U32, U64, ParseOptions, NameRecords, ClockOptions, CheckLengths, OrderMagic, LegacyMagic;
  }

  lemma {:induction false} StepFrames(d: Decoder, x: seq<byte>, offset: nat, s: Setup)
    ensures var r := NextStep(d, x, offset, s);
            r.Item? ==> if r.record.kind.Packet? then r.record.kind.meta.frame == d.nextFrame && r.next.nextFrame == d.nextFrame + 1
                        else r.next.nextFrame == d.nextFrame
  {
    hide Parse, Required;
    if x != [] && Decode(d, x, offset, s).Ok? && Decode(d, x, offset, s).value.Got? {
      var need := Required(d, x, offset, s.limits).value;
      ParseFrames(d, x[..need], offset, s);
    }
  }

  lemma {:induction false} RecordsNumbered(d: Decoder, x: seq<byte>, offset: nat, s: Setup)
    ensures Numbered(Records(d, x, offset, s).0, d.nextFrame)
    decreases |x|
  {
    hide NextStep;
    ItemRaw(d, x, offset, s);
    StepFrames(d, x, offset, s);
    if NextStep(d, x, offset, s).Item? {
      var next, record := NextStep(d, x, offset, s).next, NextStep(d, x, offset, s).record;
      var n := |record.raw|;
      RecordsNumbered(next, x[n..], offset + n, s);
      var rest := Records(next, x[n..], offset + n, s).0;
      assert ([record] + rest)[1..] == rest;
    }
  }

  /** Frames of a capture count from one. */
  lemma {:induction false} FramesCountFromOne(data: seq<byte>, s: Setup)
    ensures Numbered(Records(START, data, 0, s).0, 1)
    ensures Records(START, data, 0, s).1 ==> Raws(Records(START, data, 0, s).0) == data
  {
    hide Records, Numbered, Raws;
    RecordsNumbered(START, data, 0, s);
    RawsAreInput(START, data, 0, s);
  }
}
