/** Capture clocks: ticks of a decimal or binary fraction of a second, converted exactly or not at all. */
module Clock {
  import opened Common

  const U128_MAX: int := 0xFFFF_FFFF_FFFF_FFFF_FFFF_FFFF_FFFF_FFFF
  const BILLION: int := 1_000_000_000

  const BAD_RESOLUTION: Error := Error(InvalidTimestamp, "resolution")
  const INEXACT: Error := Error(InexactTimestamp, "timestamp")
  const BAD_TIME: Error := Error(InvalidTimestamp, "timestamp")

  datatype Resolution = Decimal(exponent: u8) | Binary(exponent: u8)

  datatype Timestamp = Timestamp(ticks: u64, resolution: Resolution, offsetSeconds: i64)

  function FromPcapng(value: u8): Resolution {
    if value < 128 then Decimal(value) else Binary(value - 128)
  }

  function ToPcapng(r: Resolution): Result<u8> {
    if r.exponent > 127 then Err(BAD_RESOLUTION)
    else match r case Decimal(x) => Ok(x) case Binary(x) => Ok(x + 128)
  }

  /** The one-octet form is exact in both directions, and exists up to exponent 127. */
  lemma {:induction false} ResolutionRoundTrip(r: Resolution, v: u8)
    ensures ToPcapng(r).Ok? <==> r.exponent <= 127
    ensures ToPcapng(r).Ok? ==> FromPcapng(ToPcapng(r).value) == r
    ensures ToPcapng(FromPcapng(v)) == Ok(v)
  {
  }

  function Pow(b: nat, n: nat): nat {
    if n == 0 then 1 else b * Pow(b, n - 1)
  }

  /** Ticks in one second. */
  function Rate(r: Resolution): nat {
    match r case Decimal(e) => Pow(10, e) case Binary(e) => Pow(2, e)
  }

  function Legacy(seconds: u32, fraction: u32, nanos: bool): Result<Timestamp> {
    var scale := if nanos then BILLION else 1_000_000;
    if fraction >= scale then Err(Error(InvalidTimestamp, "timestamp_fraction"))
    else
      assert seconds * scale + fraction <= U64_MAX;
      Ok(Timestamp(seconds * scale + fraction, Decimal(if nanos then 9 else 6), 0))
  }

  /** The part of a second that the ticks count, in whole nanoseconds. */
  function TickNanos(t: Timestamp): Result<nat> {
    match t.resolution
    case Decimal(e) =>
      if e <= 9 then Ok(t.ticks * Pow(10, 9 - e))
      else if t.ticks == 0 then Ok(0)
      else
        var divisor := Pow(10, e - 9);
        if divisor == 0 || divisor > U128_MAX || t.ticks % divisor != 0 then Err(INEXACT) else Ok(t.ticks / divisor)
    case Binary(e) =>
      var divisor := Pow(2, e);
      if divisor == 0 || divisor > U128_MAX || (t.ticks * BILLION) % divisor != 0 then Err(INEXACT)
      else Ok((t.ticks * BILLION) / divisor)
  }

  function UnixNanos(t: Timestamp): Result<i128> {
    var encoded :- ToPcapng(t.resolution);
    var part :- TickNanos(t);
    var total := part + t.offsetSeconds * BILLION;
    if part > I128_MAX || total < I128_MIN || total > I128_MAX then Err(INEXACT) else Ok(total)
  }

  function LegacyParts(t: Timestamp, nanos: bool): Result<(u32, u32)> {
    var value :- UnixNanos(t);
    if value < 0 || value / BILLION >= MODULUS then Err(BAD_TIME)
    else
      var fraction := value % BILLION;
      if !nanos && fraction % 1000 != 0 then Err(INEXACT)
      else Ok((value / BILLION, if nanos then fraction else fraction / 1000))
  }

  // ---------------------------------------------------------------- powers

  lemma {:induction false} PowPositive(b: nat, n: nat)
    requires b > 0
    ensures Pow(b, n) > 0
  {
    if n > 0 {
      PowPositive(b, n - 1);
      Positive(b, Pow(b, n - 1));
    }
  }

  lemma {:induction false} Positive(x: nat, y: nat)
    requires x > 0 && y > 0
    ensures x * y > 0
  {
  }

  lemma {:induction false} PowSum(b: nat, m: nat, n: nat)
    ensures Pow(b, m + n) == Pow(b, m) * Pow(b, n)
  {
    if m > 0 {
      PowSum(b, m - 1, n);
      Associate(b, Pow(b, m - 1), Pow(b, n));
    }
  }

  lemma {:induction false} Associate(x: nat, y: nat, z: nat)
    ensures x * (y * z) == (x * y) * z
  {
  }

  lemma {:induction false} PowGrows(b: nat, m: nat, n: nat)
    requires b > 1 && m <= n
    ensures Pow(b, m) <= Pow(b, n)
  {
    if m < n {
      PowGrows(b, m, n - 1);
      AtLeast(b, Pow(b, n - 1));
    }
  }

  lemma {:induction false} AtLeast(x: nat, y: nat)
    requires x > 0
    ensures y <= x * y
  {
  }

  lemma {:induction false} PowSmall()
    ensures Pow(10, 3) == 1000 && Pow(2, 3) == 8 && Pow(2, 4) == 16
  {
    assert Pow(10, 1) == 10 && Pow(2, 1) == 2;
    assert Pow(10, 2) == 100 && Pow(2, 2) == 4;
  }

  lemma {:induction false} PowTen()
    ensures Pow(10, 9) == BILLION && Pow(10, 39) > U128_MAX
  {
    hide Pow;
    PowSmall();
    PowSum(10, 3, 3);
    PowSum(10, 6, 3);
    PowSum(10, 9, 9);
    PowSum(10, 18, 18);
    PowSum(10, 36, 3);
  }

  lemma {:induction false} PowTwo()
    ensures Pow(2, 127) <= U128_MAX
  {
    hide Pow;
    PowSmall();
    PowSum(2, 4, 4);
    PowSum(2, 8, 8);
    PowSum(2, 16, 16);
    PowSum(2, 32, 32);
    PowSum(2, 64, 32);
    PowSum(2, 96, 16);
    PowSum(2, 112, 8);
    PowSum(2, 120, 4);
    PowSum(2, 124, 3);
  }

  lemma {:induction false} PowValues()
    ensures Pow(10, 9) == BILLION && Pow(10, 39) > U128_MAX && Pow(2, 127) <= U128_MAX
  {
    hide Pow;
    PowTen();
    PowTwo();
  }

  // ---------------------------------------------------------------- exactness

  /** The ticks are exactly n nanoseconds: n / 10^9 seconds equals ticks / rate seconds. */
  ghost predicate Equals(t: Timestamp, n: int) {
    n * Rate(t.resolution) == t.ticks * BILLION
  }

  ghost predicate Divides(d: int, x: int) {
    exists q: int :: Product(q, d) == x
  }

  function Product(q: int, d: int): int {
    q * d
  }

  lemma {:induction false} DivideExact(x: nat, d: nat)
    requires d > 0
    ensures x % d == 0 <==> Divides(d, x)
    ensures x % d == 0 ==> Product(x / d, d) == x
  {
    if x % d == 0 {
      Quotient(x, d);
      assert Product(x / d, d) == x;
    }
    if q: int :| Product(q, d) == x {
      Remainder(q, d, x);
    }
  }

  lemma {:induction false} Quotient(x: nat, d: nat)
    requires d > 0 && x % d == 0
    ensures (x / d) * d == x
  {
  }

  lemma {:induction false} Remainder(q: int, d: nat, x: nat)
    requires d > 0 && q * d == x
    ensures x % d == 0
  {
    var p, r := x / d, x % d;
    assert x == p * d + r;
    assert (q - p) * d == r by {
      Distribute(q, p, d);
    }
    SmallMultiple(q - p, d, r);
  }

  lemma {:induction false} Distribute(q: int, p: int, d: int)
    ensures (q - p) * d == q * d - p * d
  {
  }

  lemma {:induction false} SmallMultiple(m: int, d: nat, r: nat)
    requires m * d == r && r < d
    ensures r == 0
  {
    if m > 0 {
      AtLeast(m, d);
    } else if m < 0 {
      Negative(m, d);
    }
  }

  lemma {:induction false} Negative(m: int, d: nat)
    requires m < 0 && d > 0
    ensures m * d < 0
  {
  }

  lemma {:induction false} Cancel(a: int, b: int, c: nat)
    requires c > 0 && a * c == b * c
    ensures a == b
  {
    Distribute(a, b, c);
    if a > b {
      Positive(a - b, c);
    } else if a < b {
      Negative(a - b, c);
    }
  }

  /** Coarse decimal clocks always have a value in nanoseconds. */
  lemma {:induction false} CoarseExact(t: Timestamp)
    requires t.resolution.Decimal? && t.resolution.exponent <= 9
    ensures TickNanos(t).Ok? && Equals(t, TickNanos(t).value)
  {
    hide Pow;
    var e := t.resolution.exponent;
    PowSum(10, 9 - e, e);
    PowValues();
    Associate(t.ticks, Pow(10, 9 - e), Pow(10, e));
  }

  /** Fine decimal clocks have one exactly when the ticks are a multiple of the excess. */
  lemma {:induction false} FineExact(t: Timestamp)
    requires t.resolution.Decimal? && t.resolution.exponent > 9
    ensures TickNanos(t).Ok? <==> Divides(Pow(10, t.resolution.exponent - 9), t.ticks)
    ensures TickNanos(t).Ok? ==> Product(TickNanos(t).value, Pow(10, t.resolution.exponent - 9)) == t.ticks
  {
    hide Pow;
    var e := t.resolution.exponent;
    var d := Pow(10, e - 9);
    PowPositive(10, e - 9);
    DivideExact(t.ticks, d);
    PowValues();
    if t.ticks == 0 {
      assert Product(0, d) == 0;
    } else if d > U128_MAX {
      assert t.ticks < d;
      BelowDivisor(t.ticks, d);
    }
  }

  lemma {:induction false} BelowDivisor(x: nat, d: nat)
    requires 0 < x < d
    ensures x % d == x
  {
  }

  lemma {:induction false} FineEquals(t: Timestamp, n: int)
    requires t.resolution.Decimal? && t.resolution.exponent > 9
    ensures Equals(t, n) <==> Product(n, Pow(10, t.resolution.exponent - 9)) == t.ticks
  {
    hide Pow;
    var e := t.resolution.exponent;
    var d := Pow(10, e - 9);
    PowSum(10, e - 9, 9);
    PowValues();
    Regroup(n, d, BILLION);
    if Equals(t, n) {
      Cancel(n * d, t.ticks, BILLION);
    }
  }

  lemma {:induction false} Regroup(n: int, d: int, b: int)
    ensures n * (d * b) == (n * d) * b
  {
  }

  /** Binary clocks likewise, counted in billionths. */
  lemma {:induction false} BinaryExact(t: Timestamp)
    requires t.resolution.Binary? && t.resolution.exponent <= 127
    ensures TickNanos(t).Ok? <==> Divides(Rate(t.resolution), t.ticks * BILLION)
    ensures TickNanos(t).Ok? ==> Equals(t, TickNanos(t).value)
  {
    hide Pow;
    var d := Pow(2, t.resolution.exponent);
    PowPositive(2, t.resolution.exponent);
    PowGrows(2, t.resolution.exponent, 127);
    PowValues();
    DivideExact(t.ticks * BILLION, d);
  }

  lemma {:induction false} NanosBounded(t: Timestamp)
    requires TickNanos(t).Ok?
    ensures 0 <= TickNanos(t).value <= t.ticks * BILLION
  {
    hide Pow;
    match t.resolution {
      case Decimal(e) =>
        if e <= 9 {
          PowGrows(10, 9 - e, 9);
          PowValues();
          Scaled(t.ticks, Pow(10, 9 - e), BILLION);
        } else if t.ticks != 0 {
          Shrinks(t.ticks, Pow(10, e - 9));
        }
      case Binary(e) =>
        Shrinks(t.ticks * BILLION, Pow(2, e));
    }
  }

  lemma {:induction false} Scaled(x: nat, y: nat, z: nat)
    requires y <= z
    ensures x * y <= x * z
  {
  }

  lemma {:induction false} Shrinks(x: nat, d: nat)
    requires d > 0
    ensures 0 <= x / d <= x
  {
    if x / d > x {
      AtLeast(d, x / d);
    }
  }

  /**
   The conversion succeeds exactly when the exponent is encodable and the clock's rational time is a
   whole number of nanoseconds; then it returns that number.
   */
  lemma {:induction false} UnixNanosExact(t: Timestamp)
    ensures UnixNanos(t).Ok? <==> t.resolution.exponent <= 127 && exists n: int :: Equals(t, n)
    ensures UnixNanos(t).Ok? ==> Equals(t, UnixNanos(t).value - t.offsetSeconds * BILLION)
  {
    hide TickNanos, Equals;
    if t.resolution.exponent <= 127 {
      TickNanosExact(t);
      if TickNanos(t).Ok? {
        NanosBounded(t);
        var part := TickNanos(t).value;
        assert part + t.offsetSeconds * BILLION - t.offsetSeconds * BILLION == part;
      }
    }
  }

  lemma {:induction false} TickNanosExact(t: Timestamp)
    requires t.resolution.exponent <= 127
    ensures TickNanos(t).Ok? <==> exists n: int :: Equals(t, n)
    ensures TickNanos(t).Ok? ==> Equals(t, TickNanos(t).value)
  {
    hide TickNanos, Equals, Pow;
    if t.resolution.Binary? {
      BinaryExact(t);
      BinaryWitness(t);
    } else if t.resolution.exponent <= 9 {
      CoarseExact(t);
    } else {
      FineExact(t);
      FineWitness(t);
      if TickNanos(t).Ok? {
        FineEquals(t, TickNanos(t).value);
      }
    }
  }

  lemma {:induction false} BinaryWitness(t: Timestamp)
    ensures Divides(Rate(t.resolution), t.ticks * BILLION) <==> exists n: int :: Equals(t, n)
  {
    var d, x := Rate(t.resolution), t.ticks * BILLION;
    if q: int :| Product(q, d) == x {
      assert Equals(t, q);
    }
    if n: int :| Equals(t, n) {
      assert Product(n, d) == x;
    }
  }

  lemma {:induction false} FineWitness(t: Timestamp)
    requires t.resolution.Decimal? && t.resolution.exponent > 9
    ensures Divides(Pow(10, t.resolution.exponent - 9), t.ticks) <==> exists n: int :: Equals(t, n)
  {
    hide Equals, Pow;
    var d := Pow(10, t.resolution.exponent - 9);
    if q: int :| Product(q, d) == t.ticks {
      FineEquals(t, q);
    }
    if n: int :| Equals(t, n) {
      FineEquals(t, n);
    }
  }

  // ---------------------------------------------------------------- classic captures

  lemma {:induction false} LegacyNanos(seconds: u32, fraction: u32, nanos: bool)
    ensures Legacy(seconds, fraction, nanos).Ok? <==> fraction < if nanos then BILLION else 1_000_000
    ensures Legacy(seconds, fraction, nanos).Ok? ==>
              UnixNanos(Legacy(seconds, fraction, nanos).value) == Ok(seconds * BILLION + if nanos then fraction else fraction * 1000)
  {
    assert Pow(10, 0) == 1;
    assert Pow(10, 3) == 1000;
  }

  /** A time that fits a classic capture comes back with exactly the same nanoseconds. */
  lemma {:induction false} LegacyRoundTrip(t: Timestamp, nanos: bool)
    requires LegacyParts(t, nanos).Ok?
    ensures var (seconds, fraction) := LegacyParts(t, nanos).value;
            && Legacy(seconds, fraction, nanos).Ok?
            && UnixNanos(Legacy(seconds, fraction, nanos).value) == UnixNanos(t)
  {
    hide UnixNanos, Legacy;
    var (seconds, fraction) := LegacyParts(t, nanos).value;
    LegacyNanos(seconds, fraction, nanos);
    var value := UnixNanos(t).value;
    assert value == (value / BILLION) * BILLION + value % BILLION;
  }
}
