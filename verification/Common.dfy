/** Vocabulary shared by every component: bytes, machine bounds, results and resource limits. */
module Common {

  type byte = x: int | 0 <= x < 256

  /** 2^32, the size of the TCP sequence space. */
  const MODULUS: int := 0x1_0000_0000
  const USIZE_MAX: int := 0xFFFF_FFFF_FFFF_FFFF
  const U64_MAX: int := 0xFFFF_FFFF_FFFF_FFFF
  const I64_MIN: int := -0x8000_0000_0000_0000
  const I64_MAX: int := 0x7FFF_FFFF_FFFF_FFFF
  const I128_MIN: int := -0x8000_0000_0000_0000_0000_0000_0000_0000
  const I128_MAX: int := 0x7FFF_FFFF_FFFF_FFFF_FFFF_FFFF_FFFF_FFFF

  type u8 = x: int | 0 <= x < 256
  type u16 = x: int | 0 <= x < 0x1_0000
  type u32 = x: int | 0 <= x < MODULUS
  type u64 = x: int | 0 <= x <= U64_MAX
  type i64 = x: int | I64_MIN <= x <= I64_MAX
  type i128 = x: int | I128_MIN <= x <= I128_MAX

  datatype Option<+T> = None | Some(value: T)

  /** The failure families the modelled code can report. */
  datatype ErrorCode =
    | Usage
    | Truncated
    | InvalidLength
    | BadMagic
    | LimitExceeded
    | SequenceAmbiguous
    | Checksum
    | ProtocolFraming
    | InvalidTimestamp
    | InexactTimestamp
    | InvalidIndex
    | UnsupportedVersion
    | LengthMismatch
    | InvalidOption
    | MissingInterface
    | Invariant

  datatype Error = Error(code: ErrorCode, field: string)

  datatype Result<+T> = Ok(value: T) | Err(error: Error) {
    predicate IsFailure() {
      Err?
    }

    function PropagateFailure<U>(): Result<U>
      requires Err?
    {
      Err(error)
    }

    function Extract(): T
      requires Ok?
    {
      value
    }
  }

  function Limit(field: string): Error {
    Error(LimitExceeded, field)
  }

  function Bad(field: string): Error {
    Error(Invariant, field)
  }

  function Min(a: int, b: int): int {
    if a <= b then a else b
  }

  function Max(a: int, b: int): int {
    if a <= b then b else a
  }

  function Abs(a: int): nat {
    if a < 0 then -a else a
  }

  /** Clamp to the i128 range, as Rust's saturating operations do. */
  function SaturateI128(x: int): i128 {
    if x < I128_MIN then I128_MIN else if x > I128_MAX then I128_MAX else x
  }

  function SaturateI64(x: int): i64 {
    if x < I64_MIN then I64_MIN else if x > I64_MAX then I64_MAX else x
  }

  /** Wrapping 32-bit addition of an unbounded integer. */
  function Wrap32(x: int): u32 {
    x % MODULUS
  }

  datatype Direction = Forward | Reverse {
    function Other(): Direction {
      if this == Forward then Reverse else Forward
    }
  }

  /** One value per direction of a connection. */
  datatype Both<T> = Both(forward: T, reverse: T) {
    function At(d: Direction): T {
      if d == Forward then forward else reverse
    }

    function With(d: Direction, value: T): Both<T> {
      if d == Forward then this.(forward := value) else this.(reverse := value)
    }
  }

  /** Resource budgets; every one of them is a rejection threshold. */
  datatype Limits = Limits(
    maxFlows: nat,
    maxSegmentsPerFlow: nat,
    maxStreamSpan: nat,
    maxRetainedPayload: nat,
    maxFragmentSets: nat,
    maxFragmentsPerSet: nat,
    fragmentFrameLifetime: nat,
    maxProtocolMessages: nat,
    maxApplicationBytes: nat,
    maxInputBytes: nat,
    maxBlockBytes: nat,
    maxPacketBytes: nat,
    maxRecords: nat,
    maxInterfaces: nat,
    maxOptions: nat)
  {
    predicate Valid() {
      && 0 < maxFlows && 0 < maxSegmentsPerFlow
      && 0 < maxStreamSpan < 0x4000_0000
      && 0 < maxRetainedPayload && 0 < maxFragmentSets && 0 < maxFragmentsPerSet
      && 0 < fragmentFrameLifetime && 0 < maxProtocolMessages && 0 < maxApplicationBytes
      && 0 < maxInputBytes && 28 <= maxBlockBytes && 0 < maxPacketBytes && 0 < maxRecords
      && 0 < maxInterfaces && 0 < maxOptions
    }
  }

  /** The capture section, interface and tags a packet was seen under. */
  datatype Scope = Scope(section: u32, interface: u32, linkInterface: Option<u32>, vlans: seq<u16>)

  const LIMITS_ERROR: Error := Error(Usage, "limits")
}
