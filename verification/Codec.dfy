/**
 The canonical little-endian codec of the history store. An encoder puts a field in front of what
 follows it; a reader takes a field and returns what is left.
 */
module Codec {
  import opened Common

  type Digest = b: seq<byte> | |b| == 32 witness seq(32, i => 0)

  /** A value together with the bytes behind it. */
  type Read<+T> = Result<(T, seq<byte>)>

  const TRUNCATED: Error := Bad("history_record")

  function Power(n: nat): nat {
    if n == 0 then 1 else 256 * Power(n - 1)
  }

  /** The n low-order bytes of v, least significant first. */
  function Le(v: nat, n: nat): (b: seq<byte>)
    ensures |b| == n
  {
    if n == 0 then [] else [v % 256] + Le(v / 256, n - 1)
  }

  function FromLe(b: seq<byte>): nat {
    if b == [] then 0 else b[0] + 256 * FromLe(b[1..])
  }

  lemma {:induction false} LeRoundTrip(v: nat, n: nat)
    requires v < Power(n)
    ensures FromLe(Le(v, n)) == v
  {
    if n > 0 {
      LeRoundTrip(v / 256, n - 1);
      assert Le(v, n)[1..] == Le(v / 256, n - 1);
    }
  }

  lemma {:induction false} Powers()
    ensures Power(1) == 256 && Power(2) == 0x1_0000 && Power(4) == MODULUS
    ensures Power(8) == U64_MAX + 1 && Power(16) == I128_MAX - I128_MIN + 1
  {
    assert Power(3) == 0x100_0000;
    assert Power(6) == 0x1_0000_0000_0000;
    assert Power(10) == 0x1_0000_0000_0000 * MODULUS;
    assert Power(13) == 0x1_0000_0000_0000 * MODULUS * 0x100_0000;
  }

  // ---------------------------------------------------------------- primitives

  function Take(b: seq<byte>, n: nat): Read<seq<byte>> {
    if |b| < n then Err(TRUNCATED) else Ok((b[..n], b[n..]))
  }

  function PutNumber(v: nat, n: nat, rest: seq<byte>): seq<byte> {
    Le(v, n) + rest
  }

  function ReadNumber(b: seq<byte>, n: nat): Read<nat> {
    var (front, rest) :- Take(b, n);
    Ok((FromLe(front), rest))
  }

  /** Two's complement of n bytes. */
  function PutSigned(v: int, n: nat, rest: seq<byte>): seq<byte>
    requires 0 <= v + Power(n)
  {
    PutNumber(if v < 0 then v + Power(n) else v, n, rest)
  }

  function ReadSigned(b: seq<byte>, n: nat): Read<int> {
    var (v, rest) :- ReadNumber(b, n);
    Ok((if 2 * v < Power(n) then v else v - Power(n), rest))
  }

  function PutFlag(v: bool, rest: seq<byte>): seq<byte> {
    PutNumber(if v then 1 else 0, 1, rest)
  }

  function ReadFlag(b: seq<byte>): Read<bool> {
    var (v, rest) :- ReadNumber(b, 1);
    if v == 0 then Ok((false, rest)) else if v == 1 then Ok((true, rest)) else Err(Bad("history_bool"))
  }

  function PutRaw(v: seq<byte>, rest: seq<byte>): seq<byte> {
    v + rest
  }

  function PutBytes(v: seq<byte>, rest: seq<byte>): seq<byte> {
    PutNumber(|v|, 4, PutRaw(v, rest))
  }

  function ReadBytes(b: seq<byte>, max: nat): Read<seq<byte>> {
    var (n, rest) :- ReadNumber(b, 4);
    if n > max then Err(Limit("history_blob")) else Take(rest, n)
  }

  function ReadText(b: seq<byte>, max: nat, utf8: seq<byte> -> bool): Read<seq<byte>> {
    var (text, rest) :- ReadBytes(b, max);
    if utf8(text) then Ok((text, rest)) else Err(Bad("history_text"))
  }

  /** A decoder is done exactly when nothing is left. */
  function Finish<T>(value: T, rest: seq<byte>): Result<T> {
    if rest == [] then Ok(value) else Err(TRUNCATED)
  }

  // ---------------------------------------------------------------- round trips

  lemma {:induction false} RawRoundTrip(v: seq<byte>, rest: seq<byte>)
    ensures Take(PutRaw(v, rest), |v|) == Ok((v, rest)) && |PutRaw(v, rest)| == |v| + |rest|
  {
    assert (v + rest)[..|v|] == v && (v + rest)[|v|..] == rest;
  }

  lemma {:induction false} NumberRoundTrip(v: nat, n: nat, rest: seq<byte>)
    requires v < Power(n)
    ensures ReadNumber(PutNumber(v, n, rest), n) == Ok((v, rest)) && |PutNumber(v, n, rest)| == n + |rest|
  {
    hide Le, FromLe, Take, Power;
    LeRoundTrip(v, n);
    RawRoundTrip(Le(v, n), rest);
    LeSize(v, n);
  }

  lemma {:induction false} LeSize(v: nat, n: nat)
    ensures |Le(v, n)| == n
  {
  }

  lemma {:induction false} SignedRoundTrip(v: int, n: nat, rest: seq<byte>)
    requires 0 <= 2 * v + Power(n) < 2 * Power(n)
    ensures ReadSigned(PutSigned(v, n, rest), n) == Ok((v, rest)) && |PutSigned(v, n, rest)| == n + |rest|
  {
    hide Power, PutNumber, ReadNumber;
    NumberRoundTrip(if v < 0 then v + Power(n) else v, n, rest);
  }

  lemma {:induction false} FlagRoundTrip(v: bool, rest: seq<byte>)
    ensures ReadFlag(PutFlag(v, rest)) == Ok((v, rest)) && |PutFlag(v, rest)| == 1 + |rest|
  {
    hide PutNumber, ReadNumber;
    Powers();
    NumberRoundTrip(if v then 1 else 0, 1, rest);
  }

  lemma {:induction false} BytesRoundTrip(v: seq<byte>, max: nat, rest: seq<byte>)
    requires |v| <= max && |v| < MODULUS
    ensures ReadBytes(PutBytes(v, rest), max) == Ok((v, rest)) && |PutBytes(v, rest)| == 4 + |v| + |rest|
  {
    hide PutNumber, ReadNumber, PutRaw, Take, Power;
    Powers();
    NumberRoundTrip(|v|, 4, PutRaw(v, rest));
    RawRoundTrip(v, rest);
  }

  lemma {:induction false} TextRoundTrip(v: seq<byte>, max: nat, utf8: seq<byte> -> bool, rest: seq<byte>)
    requires |v| <= max && |v| < MODULUS && utf8(v)
    ensures ReadText(PutBytes(v, rest), max, utf8) == Ok((v, rest)) && |PutBytes(v, rest)| == 4 + |v| + |rest|
  {
    hide PutBytes, ReadBytes;
    BytesRoundTrip(v, max, rest);
  }
}
