/** The codec as the history store uses it: a growing output and a cursor over an input. */
module CodecBuffers {
  import opened Common
  import opened Codec

  class Encoder {
    var out: seq<byte>

    constructor ()
      ensures out == []
    {
      out := [];
    }

    /** What has been written, followed by anything, begins with the fields in the order they came. */
    method Number(v: nat, n: nat)
      modifies this
      ensures forall rest :: out + rest == old(out) + PutNumber(v, n, rest)
    {
      out := out + Le(v, n);
      Continues(old(out), Le(v, n));
    }

    method Signed(v: int, n: nat)
      requires 0 <= v + Power(n)
      modifies this
      ensures forall rest :: out + rest == old(out) + PutSigned(v, n, rest)
    {
      Number(if v < 0 then v + Power(n) else v, n);
    }

    method Flag(v: bool)
      modifies this
      ensures forall rest :: out + rest == old(out) + PutFlag(v, rest)
    {
      Number(if v then 1 else 0, 1);
    }

    method Raw(v: seq<byte>)
      modifies this
      ensures forall rest :: out + rest == old(out) + PutRaw(v, rest)
    {
      out := out + v;
      Continues(old(out), v);
    }

    /** A length-prefixed field, unless its length does not fit the prefix. */
    method Bytes(v: seq<byte>) returns (ok: bool)
      modifies this
      ensures ok <==> |v| < MODULUS
      ensures ok ==> forall rest :: out + rest == old(out) + PutBytes(v, rest)
      ensures !ok ==> out == old(out)
    {
      if |v| >= MODULUS {
        return false;
      }
      out := out + Le(|v|, 4) + v;
      forall rest ensures out + rest == old(out) + PutBytes(v, rest) {
        assert out + rest == old(out) + (Le(|v|, 4) + (v + rest));
      }
      ok := true;
    }
  }

  lemma {:induction false} Continues(a: seq<byte>, b: seq<byte>)
    ensures forall rest :: (a + b) + rest == a + (b + rest)
  {
    forall rest ensures (a + b) + rest == a + (b + rest) {
    }
  }

  /** A cursor result agrees with reading from the bytes that were left. */
  ghost predicate Agrees<T>(read: Read<T>, r: Result<T>, left: seq<byte>) {
    match read
    case Ok(v) => r == Ok(v.0) && left == v.1
    case Err(e) => r == Err(e)
  }

  class Decoder {
    const bytes: seq<byte>
    var at: nat

    ghost predicate Valid()
      reads this
    {
      at <= |bytes|
    }

    ghost function Left(): seq<byte>
      requires Valid()
      reads this
    {
      bytes[at..]
    }

    constructor (bytes: seq<byte>)
      ensures Valid() && Left() == bytes
    {
      this.bytes := bytes;
      this.at := 0;
    }

    method TakeBytes(n: nat) returns (r: Result<seq<byte>>)
      requires Valid()
      modifies this
      ensures Valid() && Agrees(Take(old(Left()), n), r, Left())
    {
      if |bytes| - at < n {
        return Err(TRUNCATED);
      }
      assert bytes[at..][..n] == bytes[at..at + n] && bytes[at..][n..] == bytes[at + n..];
      r := Ok(bytes[at..at + n]);
      at := at + n;
    }

    method Number(n: nat) returns (r: Result<nat>)
      requires Valid()
      modifies this
      ensures Valid() && Agrees(ReadNumber(old(Left()), n), r, Left())
    {
      var front := TakeBytes(n);
      r := if front.Ok? then Ok(FromLe(front.value)) else Err(front.error);
    }

    method Signed(n: nat) returns (r: Result<int>)
      requires Valid()
      modifies this
      ensures Valid() && Agrees(ReadSigned(old(Left()), n), r, Left())
    {
      var v := Number(n);
      r := if v.Err? then Err(v.error) else if 2 * v.value < Power(n) then Ok(v.value) else Ok(v.value - Power(n));
    }

    method Flag() returns (r: Result<bool>)
      requires Valid()
      modifies this
      ensures Valid() && Agrees(ReadFlag(old(Left())), r, Left())
    {
      var v := Number(1);
      if v.Err? {
        return Err(v.error);
      }
      r := if v.value == 0 then Ok(false) else if v.value == 1 then Ok(true) else Err(Bad("history_bool"));
    }

    method Bytes(max: nat) returns (r: Result<seq<byte>>)
      requires Valid()
      modifies this
      ensures Valid() && Agrees(ReadBytes(old(Left()), max), r, Left())
    {
      var n := Number(4);
      if n.Err? {
        return Err(n.error);
      }
      if n.value > max {
        return Err(Limit("history_blob"));
      }
      r := TakeBytes(n.value);
    }

    method Text(max: nat, utf8: seq<byte> -> bool) returns (r: Result<seq<byte>>)
      requires Valid()
      modifies this
      ensures Valid() && Agrees(ReadText(old(Left()), max, utf8), r, Left())
    {
      r := Bytes(max);
      if r.Ok? && !utf8(r.value) {
        r := Err(Bad("history_text"));
      }
    }

    method Done() returns (ok: bool)
      requires Valid()
      ensures ok <==> Left() == []
    {
      ok := at == |bytes|;
    }
  }
}
