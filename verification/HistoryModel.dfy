/** Tuples, witnesses and observed segments of the history store, with their canonical codecs. */
module HistoryModel {
  import opened Common
  import opened Codec
  import Lexicographic

  /** The primitives this model takes as given: the digest, UTF-8 validity and control characters. */
  datatype Opaque = Opaque(sha256: seq<byte> -> Digest, utf8: seq<byte> -> bool, control: seq<byte> -> bool)

  type Octets4 = b: seq<byte> | |b| == 4 witness [0, 0, 0, 0]
  type Octets16 = b: seq<byte> | |b| == 16 witness seq(16, i => 0)

  datatype Address = V4(v4: Octets4) | V6(v6: Octets16)

  datatype Endpoint = Endpoint(address: Address, port: u16)

  datatype Key = Key(
    section: u32,
    interface: u32,
    linkInterface: Option<u32>,
    vlans: seq<u16>,
    tunnels: seq<seq<byte>>,
    a: Endpoint,
    b: Endpoint)

  datatype Witness = Witness(start: u32, end: u32, frame: u64, recordOffset: u64, packetStart: u32, sourceOffset: u64)

  datatype EpochPolicy = StrictAlternatives | NearestFrontier

  datatype Config = Config(
    maxSourceBytes: nat,
    maxDiskBytes: u64,
    maxRecords: nat,
    maxRecordBytes: nat,
    hotTuples: nat,
    maxGenerations: nat,
    maxWitnesses: nat,
    maxEpochCandidates: nat,
    sequenceHorizon: int,
    epochPolicy: EpochPolicy,
    sortEntries: nat,
    mergeFanIn: nat,
    maxQueryBytes: nat,
    maxQueryIntervals: nat,
    maxQueryWork: u64,
    checkpointRecords: u64)
  {
    predicate Valid() {
      && 0 < maxSourceBytes <= U64_MAX / 8 && 1024 <= maxDiskBytes && 0 < maxRecords <= U64_MAX / 2
      && 4096 <= maxRecordBytes <= 16 * 1024 * 1024 && 1 <= hotTuples <= 4096 && 1 <= maxGenerations <= 4096
      && 1 <= maxWitnesses <= 4096 && 1 <= maxEpochCandidates <= 64 && 1 <= sequenceHorizon < 0x8000_0000
      && 2 <= sortEntries <= 1_000_000 && 2 <= mergeFanIn <= 64 && 1 <= maxQueryBytes <= 1024 * 1024
      && 1 <= maxQueryIntervals <= 65536 && 0 < maxQueryWork && 0 < checkpointRecords
    }
  }

  const CONFIG_ERROR: Error := Bad("history_config")

  // ---------------------------------------------------------------- tuples

  function Octets(a: Address): seq<byte> {
    match a case V4(b) => b case V6(b) => b
  }

  /** The fields of an endpoint in comparison order. */
  function EndpointOrder(e: Endpoint): seq<int> {
    [if e.address.V4? then 4 else 6] + Octets(e.address) + [e.port]
  }

  predicate Canonical(k: Key, o: Opaque) {
    && Lexicographic.Leq(EndpointOrder(k.a), EndpointOrder(k.b))
    && |k.vlans| <= 8 && (forall i | 0 <= i < |k.vlans| :: k.vlans[i] <= 4095)
    && |k.tunnels| <= 16 && (forall i | 0 <= i < |k.tunnels| :: |k.tunnels[i]| <= 512 && !o.control(k.tunnels[i]))
  }

  /** Tunnel names are strings, so their bytes are valid UTF-8. */
  ghost predicate Strings(k: Key, o: Opaque) {
    forall i | 0 <= i < |k.tunnels| :: o.utf8(k.tunnels[i])
  }

  function PutEndpoint(e: Endpoint, rest: seq<byte>): seq<byte> {
    PutNumber(if e.address.V4? then 4 else 6, 1, PutRaw(Octets(e.address), PutNumber(e.port, 2, rest)))
  }

  function ReadEndpoint(b: seq<byte>): Read<Endpoint> {
    var (family, b1) :- ReadNumber(b, 1);
    if family == 4 then
      var (octets, b2) :- Take(b1, 4);
      var (port, b3) :- ReadPort(b2);
      Ok((Endpoint(V4(octets), port), b3))
    else if family == 6 then
      var (octets, b2) :- Take(b1, 16);
      var (port, b3) :- ReadPort(b2);
      Ok((Endpoint(V6(octets), port), b3))
    else Err(Bad("history_address"))
  }

  lemma {:induction false} FromLeBound(b: seq<byte>)
    ensures FromLe(b) < Power(|b|)
  {
    if b != [] {
      FromLeBound(b[1..]);
    }
  }

  function ReadPort(b: seq<byte>): Read<u16> {
    var (v, rest) :- ReadNumber(b, 2);
    FromLeBound(b[..2]);
    Powers();
    Ok((v, rest))
  }

  function ReadU32(b: seq<byte>): Read<u32> {
    var (v, rest) :- ReadNumber(b, 4);
    FromLeBound(b[..4]);
    Powers();
    Ok((v, rest))
  }

  function ReadU64(b: seq<byte>): Read<u64> {
    var (v, rest) :- ReadNumber(b, 8);
    FromLeBound(b[..8]);
    Powers();
    Ok((v, rest))
  }

  function PutLink(v: Option<u32>, rest: seq<byte>): seq<byte> {
    match v
    case None => PutFlag(false, rest)
    case Some(x) => PutFlag(true, PutNumber(x, 4, rest))
  }

  function ReadOptionU32(b: seq<byte>): Read<Option<u32>> {
    var (some, rest) :- ReadFlag(b);
    if some then
      var (v, after) :- ReadU32(rest);
      Ok((Some(v), after))
    else Ok((None, rest))
  }

  function PutVlans(v: seq<u16>, rest: seq<byte>): seq<byte> {
    if v == [] then rest else PutNumber(v[0], 2, PutVlans(v[1..], rest))
  }

  function ReadVlans(b: seq<byte>, n: nat): Read<seq<u16>> {
    if n == 0 then Ok(([], b))
    else
      var (v, b1) :- ReadPort(b);
      var (vs, b2) :- ReadVlans(b1, n - 1);
      Ok(([v] + vs, b2))
  }

  function PutTexts(v: seq<seq<byte>>, rest: seq<byte>): seq<byte> {
    if v == [] then rest else PutBytes(v[0], PutTexts(v[1..], rest))
  }

  function ReadTexts(b: seq<byte>, n: nat, max: nat, utf8: seq<byte> -> bool): Read<seq<seq<byte>>> {
    if n == 0 then Ok(([], b))
    else
      var (v, b1) :- ReadText(b, max, utf8);
      var (vs, b2) :- ReadTexts(b1, n - 1, max, utf8);
      Ok(([v] + vs, b2))
  }

  function PutKey(k: Key, rest: seq<byte>): seq<byte> {
    PutNumber(k.section, 4, PutNumber(k.interface, 4, PutLink(k.linkInterface,
      PutNumber(|k.vlans|, 1, PutVlans(k.vlans,
      PutNumber(|k.tunnels|, 1, PutTexts(k.tunnels,
      PutEndpoint(k.a, PutEndpoint(k.b, rest)))))))))
  }

  function ReadKey(b: seq<byte>, o: Opaque): Read<Key> {
    var (section, b1) :- ReadU32(b);
    var (interface, b2) :- ReadU32(b1);
    var (link, b3) :- ReadOptionU32(b2);
    var (n, b4) :- ReadNumber(b3, 1);
    if n > 8 then Err(Limit("vlans"))
    else
      var (vlans, b5) :- ReadVlans(b4, n);
      var (m, b6) :- ReadNumber(b5, 1);
      if m > 16 then Err(Limit("tunnels"))
      else
        var (tunnels, b7) :- ReadTexts(b6, m, 512, o.utf8);
        var (a, b8) :- ReadEndpoint(b7);
        var (z, b9) :- ReadEndpoint(b8);
        Ok((Key(section, interface, link, vlans, tunnels, a, z), b9))
  }

  function EncodeKey(k: Key, o: Opaque): Result<seq<byte>> {
    if Canonical(k, o) then Ok(PutKey(k, [])) else Err(Bad("history_tuple"))
  }

  function DecodeKey(b: seq<byte>, o: Opaque): Result<Key> {
    var (k, rest) :- ReadKey(b, o);
    var done :- Finish(k, rest);
    if Canonical(k, o) then Ok(k) else Err(Bad("history_tuple"))
  }

  // ---------------------------------------------------------------- round trips

  lemma {:induction false} U32RoundTrip(v: u32, rest: seq<byte>)
    ensures ReadU32(PutNumber(v, 4, rest)) == Ok((v, rest)) && |PutNumber(v, 4, rest)| == 4 + |rest|
  {
    hide PutNumber, ReadNumber, Power;
    Powers();
    NumberRoundTrip(v, 4, rest);
  }

  lemma {:induction false} U64RoundTrip(v: u64, rest: seq<byte>)
    ensures ReadU64(PutNumber(v, 8, rest)) == Ok((v, rest)) && |PutNumber(v, 8, rest)| == 8 + |rest|
  {
    hide PutNumber, ReadNumber, Power;
    Powers();
    NumberRoundTrip(v, 8, rest);
  }

  lemma {:induction false} U16RoundTrip(v: u16, rest: seq<byte>)
    ensures ReadPort(PutNumber(v, 2, rest)) == Ok((v, rest)) && |PutNumber(v, 2, rest)| == 2 + |rest|
  {
    hide PutNumber, ReadNumber, Power;
    Powers();
    NumberRoundTrip(v, 2, rest);
  }

  lemma {:induction false} ByteRoundTrip(v: nat, rest: seq<byte>)
    requires v < 256
    ensures ReadNumber(PutNumber(v, 1, rest), 1) == Ok((v, rest)) && |PutNumber(v, 1, rest)| == 1 + |rest|
  {
    Powers();
    NumberRoundTrip(v, 1, rest);
  }

  lemma {:induction false} LinkRoundTrip(v: Option<u32>, rest: seq<byte>)
    ensures ReadOptionU32(PutLink(v, rest)) == Ok((v, rest)) && |PutLink(v, rest)| <= 5 + |rest|
  {
    hide PutNumber, ReadU32, PutFlag, ReadFlag;
    if v.Some? {
      U32RoundTrip(v.value, rest);
      FlagRoundTrip(true, PutNumber(v.value, 4, rest));
    } else {
      FlagRoundTrip(false, rest);
    }
  }

  lemma {:induction false} EndpointRoundTrip(e: Endpoint, rest: seq<byte>)
    ensures ReadEndpoint(PutEndpoint(e, rest)) == Ok((e, rest)) && |PutEndpoint(e, rest)| <= 19 + |rest|
  {
    hide PutNumber, ReadNumber, PutRaw, Take, ReadPort;
    var tail := PutNumber(e.port, 2, rest);
    U16RoundTrip(e.port, rest);
    RawRoundTrip(Octets(e.address), tail);
    ByteRoundTrip(if e.address.V4? then 4 else 6, PutRaw(Octets(e.address), tail));
  }

  lemma {:induction false} VlansRoundTrip(v: seq<u16>, rest: seq<byte>)
    ensures ReadVlans(PutVlans(v, rest), |v|) == Ok((v, rest)) && |PutVlans(v, rest)| == 2 * |v| + |rest|
  {
    hide PutNumber, ReadPort;
    if v != [] {
      VlansRoundTrip(v[1..], rest);
      U16RoundTrip(v[0], PutVlans(v[1..], rest));
      assert v == [v[0]] + v[1..];
    }
  }

  lemma {:induction false} TextsRoundTrip(v: seq<seq<byte>>, max: nat, utf8: seq<byte> -> bool, rest: seq<byte>)
    requires max < MODULUS && forall i | 0 <= i < |v| :: |v[i]| <= max && utf8(v[i])
    ensures ReadTexts(PutTexts(v, rest), |v|, max, utf8) == Ok((v, rest))
    ensures |PutTexts(v, rest)| <= (4 + max) * |v| + |rest|
  {
    hide PutBytes, ReadText;
    if v != [] {
      TextsRoundTrip(v[1..], max, utf8, rest);
      TextRoundTrip(v[0], max, utf8, PutTexts(v[1..], rest));
      assert v == [v[0]] + v[1..];
      Products(max, |v|);
    }
  }

  lemma {:induction false} Products(max: nat, n: nat)
    requires n > 0
    ensures (4 + max) * n == (4 + max) * (n - 1) + 4 + max
  {
  }

  /** A canonical tuple reads back as itself, in at most 8325 bytes. */
  lemma {:induction false} KeyRoundTrip(k: Key, o: Opaque, rest: seq<byte>)
    requires Canonical(k, o) && Strings(k, o)
    ensures ReadKey(PutKey(k, rest), o) == Ok((k, rest)) && |PutKey(k, rest)| <= 8325 + |rest|
  {
    hide PutNumber, ReadNumber, PutEndpoint, ReadEndpoint, PutLink, ReadOptionU32, PutVlans, ReadVlans, PutTexts, ReadTexts, ReadU32, Lexicographic.Leq;
    var e9 := PutEndpoint(k.b, rest);
    EndpointRoundTrip(k.b, rest);
    var e8 := PutEndpoint(k.a, e9);
    EndpointRoundTrip(k.a, e9);
    var e7 := PutTexts(k.tunnels, e8);
    TextsRoundTrip(k.tunnels, 512, o.utf8, e8);
    var e6 := PutNumber(|k.tunnels|, 1, e7);
    ByteRoundTrip(|k.tunnels|, e7);
    var e5 := PutVlans(k.vlans, e6);
    VlansRoundTrip(k.vlans, e6);
    var e4 := PutNumber(|k.vlans|, 1, e5);
    ByteRoundTrip(|k.vlans|, e5);
    var e3 := PutLink(k.linkInterface, e4);
    LinkRoundTrip(k.linkInterface, e4);
    var e2 := PutNumber(k.interface, 4, e3);
    U32RoundTrip(k.interface, e3);
    U32RoundTrip(k.section, e2);
  }

  /** Encoding then decoding a tuple is the identity exactly on the tuples that encode. */
  lemma {:induction false} KeyCodec(k: Key, o: Opaque)
    requires Strings(k, o)
    ensures EncodeKey(k, o).Ok? <==> Canonical(k, o)
    ensures EncodeKey(k, o).Ok? ==>
              |EncodeKey(k, o).value| <= 8325 && DecodeKey(EncodeKey(k, o).value, o) == Ok(k)
  {
    hide PutKey, ReadKey, Canonical;
    if Canonical(k, o) {
      KeyRoundTrip(k, o, []);
    }
  }
}
