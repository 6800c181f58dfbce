/**
 IP fragment reassembly as a function of the retained sets. A set collects the parts of one
 datagram; once two parts contradict each other the set is quarantined and never completes.
 */
module FragmentSets {
  import opened Common
  import opened Provenance

  datatype ChecksumState = ChecksumValid | ChecksumInvalid | ChecksumAbsent | ChecksumUnchecked

  datatype ChecksumContext = BaseAddresses | Unsupported

  datatype FragmentInfo = FragmentInfo(id: u32, offset: nat, more: bool)

  datatype Datagram = Datagram(
    scope: Scope,
    source: nat,
    destination: nat,
    protocol: u8,
    ipv6: bool,
    headerLength: nat,
    fragment: Option<FragmentInfo>,
    payload: Evidence,
    ipChecksum: ChecksumState,
    context: ChecksumContext)

  datatype Key = Key(scope: Scope, source: nat, destination: nat, protocol: u8, id: u32, ipv6: bool)

  datatype Part = Part(start: nat, more: bool, bytes: Evidence) {
    function End(): nat {
      start + |bytes.data|
    }
  }

  datatype FragmentSet = FragmentSet(
    template: Datagram,
    parts: seq<Part>,
    end: Option<nat>,
    firstFrame: nat,
    packets: set<PacketId>,
    poisoned: bool)

  datatype Reassembler = Reassembler(sets: map<Key, FragmentSet>, deadlines: set<(nat, Key)>, retained: nat)

  datatype Code =
    | InvalidRange
    | Quarantined
    | ConflictingTerminal
    | OutsideTerminal
    | Ipv6Overlap
    | ConflictingBytes
    | LengthOverflow
    | ExpiredSet
    | QuarantineAtEof
    | IncompleteAtEof

  datatype Notice = Notice(code: Code, packets: set<PacketId>)

  datatype Outcome =
    | Pending
    | Complete(datagram: Datagram, packets: set<PacketId>)
    | Rejected(notice: Notice)

  const MAX_DATAGRAM: int := 65535

  const NO_SETS: Reassembler := Reassembler(map[], {}, 0)

  function KeyFor(d: Datagram, info: FragmentInfo): Key {
    Key(d.scope, d.source, d.destination, if d.ipv6 then 0 else d.protocol, info.id, d.ipv6)
  }

  /** The frame at which a set expires, when that number exists. */
  function Deadline(limits: Limits, firstFrame: nat): Option<nat> {
    var n := firstFrame + limits.fragmentFrameLifetime + 1;
    if n <= U64_MAX then Some(n) else None
  }

  function PartsLength(parts: seq<Part>): nat {
    if parts == [] then 0 else PartsLength(parts[..|parts| - 1]) + |parts[|parts| - 1].bytes.data|
  }

  /** The position of a new part: behind every part that starts no later. */
  function InsertAt(parts: seq<Part>, start: nat): (k: nat)
    ensures k <= |parts|
  {
    if parts == [] then 0
    else if parts[|parts| - 1].start <= start then |parts|
    else InsertAt(parts[..|parts| - 1], start)
  }

  function Insert(parts: seq<Part>, p: Part): seq<Part> {
    var k := InsertAt(parts, p.start);
    parts[..k] + [p] + parts[k..]
  }

  /** How far the parts from index k on continue a run that has reached c. */
  function Cursor(parts: seq<Part>, k: nat, c: nat): nat
    requires k <= |parts|
    decreases |parts| - k
  {
    if k == |parts| || parts[k].start > c then c
    else Cursor(parts, k + 1, Max(c, parts[k].End()))
  }

  predicate Overlap(p: Part, q: Part) {
    Max(p.start, q.start) < Min(p.End(), q.End())
  }

  /** The bytes a part gives to [a, b). */
  function Window(p: Part, a: nat, b: nat): seq<byte> {
    if p.start <= a <= b <= p.End() then p.bytes.data[a - p.start..b - p.start] else []
  }

  predicate Agree(p: Part, q: Part) {
    Overlap(p, q) ==>
      Window(p, Max(p.start, q.start), Min(p.End(), q.End())) == Window(q, Max(p.start, q.start), Min(p.End(), q.End()))
  }

  /** A part that lies beyond the terminal length, or should not be the last but is. */
  predicate Outside(p: Part, total: nat) {
    p.End() > total || (p.more && p.End() >= total)
  }

  /** The overlap verdict against the first k parts; a later contradiction replaces an earlier one. */
  function OverlapVerdict(parts: seq<Part>, p: Part, ipv6: bool, k: nat, before: Option<Code>): Option<Code>
    requires k <= |parts|
  {
    if k == 0 then before
    else if Overlap(parts[k - 1], p) && ipv6 then Some(Ipv6Overlap)
    else if Overlap(parts[k - 1], p) && !Agree(parts[k - 1], p) then Some(ConflictingBytes)
    else OverlapVerdict(parts, p, ipv6, k - 1, before)
  }

  /** The terminal length a set believes in once this part has been seen. */
  function EndAfter(s: FragmentSet, p: Part): Option<nat> {
    if p.more then s.end else Some(p.End())
  }

  /** Why a part contradicts its set, if it does. */
  function Verdict(s: FragmentSet, p: Part, ipv6: bool): Option<Code> {
    var first := if !p.more && s.end.Some? && s.end.value != p.End() then Some(ConflictingTerminal) else None;
    var end := EndAfter(s, p);
    var second :=
      if end.Some? && (Outside(p, end.value) || exists i | 0 <= i < |s.parts| :: Outside(s.parts[i], end.value))
      then Some(OutsideTerminal) else first;
    OverlapVerdict(s.parts, p, ipv6, |s.parts|, second)
  }

  /** Header fields the offset-zero fragment owns, and checksum flags that stick. */
  function TemplateAfter(t: Datagram, d: Datagram, offset: nat): Datagram {
    var u := t.(
      ipChecksum := if d.ipChecksum == ChecksumInvalid then ChecksumInvalid else t.ipChecksum,
      context := if d.context == Unsupported then Unsupported else t.context);
    if offset == 0 then u.(protocol := d.protocol, headerLength := d.headerLength) else u
  }

  function SaturatingSub(a: nat, b: nat): nat {
    if a >= b then a - b else 0
  }

  /** Join the first k parts, skipping the bytes already present. */
  function Joined(parts: seq<Part>, k: nat): Evidence
    requires k <= |parts|
  {
    if k == 0 then EMPTY
    else
      var before := Joined(parts, k - 1);
      var p := parts[k - 1];
      var skip := Min(SaturatingSub(|before.data|, p.start), |p.bytes.data|);
      if skip < |p.bytes.data| then
        Evidence(before.data + p.bytes.data[skip..|p.bytes.data|],
                 AppendSpans(before.spans, |before.data|, SliceSpans(p.bytes.spans, skip, |p.bytes.data|)), true)
      else before
  }

  function NewSet(d: Datagram, frame: nat): FragmentSet {
    FragmentSet(d.(payload := EMPTY), [], None, frame, {}, false)
  }

  function Remove(r: Reassembler, limits: Limits, key: Key): Reassembler
    requires key in r.sets && PartsLength(r.sets[key].parts) <= r.retained
  {
    var s := r.sets[key];
    Reassembler(
      r.sets - {key},
      if Deadline(limits, s.firstFrame).Some? then r.deadlines - {(Deadline(limits, s.firstFrame).value, key)} else r.deadlines,
      r.retained - PartsLength(s.parts))
  }

  /** The overhead that counts towards the size of the reassembled datagram. */
  function Overhead(t: Datagram, ipv6: bool): nat {
    if ipv6 then SaturatingSub(t.headerLength, 48) else t.headerLength
  }

  datatype SetStep =
    | SetRejected(set_: FragmentSet, code: Code)
    | SetPending(set_: FragmentSet)
    | SetReady(set_: FragmentSet)

  /** One fragment offered to a set that holds the admitted packets. */
  function Offer(s: FragmentSet, d: Datagram, info: FragmentInfo, packets: set<PacketId>): SetStep {
    var s1 := s.(packets := packets);
    if s1.poisoned then SetRejected(s1, Quarantined)
    else
      var p := Part(info.offset, info.more, d.payload);
      var s2 := s1.(template := TemplateAfter(s1.template, d, info.offset), end := EndAfter(s1, p));
      var verdict := Verdict(s1, p, d.ipv6);
      if verdict.Some? then SetRejected(s2.(poisoned := true), verdict.value)
      else
        var s3 := s2.(parts := Insert(s2.parts, p));
        if s3.end.Some? && Cursor(s3.parts, 0, 0) == s3.end.value then
          if s3.end.value + Overhead(s3.template, d.ipv6) > MAX_DATAGRAM
          then SetRejected(s3.(poisoned := true), LengthOverflow)
          else SetReady(s3)
        else SetPending(s3)
  }

  function Push(r: Reassembler, limits: Limits, d: Datagram, frame: nat): (Reassembler, Result<Outcome>) {
    if !limits.Valid() then (r, Err(LIMITS_ERROR))
    else if d.fragment.None? then (r, Ok(Complete(d, Packets(d.payload))))
    else
      var info := d.fragment.value;
      var key := KeyFor(d, info);
      if info.offset + |d.payload.data| > USIZE_MAX then (r, Err(Limit("fragment_range")))
      else if info.offset + |d.payload.data| > MAX_DATAGRAM || d.payload.data == [] then
        (r, Ok(Rejected(Notice(InvalidRange, Packets(d.payload)))))
      else if !Valid(d.payload) then (r, Err(LAYOUT_ERROR))
      else
        var known := key in r.sets;
        var admitted := (if known then r.sets[key].packets else {}) + Packets(d.payload);
        if |admitted| > limits.maxFragmentsPerSet || (known && |r.sets[key].parts| >= limits.maxFragmentsPerSet) then
          (r, Err(Limit("fragments_per_set")))
        else
          var size := if known && r.sets[key].poisoned then r.retained else r.retained + |d.payload.data|;
          if size > limits.maxRetainedPayload then (r, Err(Limit("fragment_payload")))
          else if !known && |r.sets| >= limits.maxFragmentSets then (r, Err(Limit("fragment_sets")))
          else
            var held := if known then r else Open(r, limits, key, d, frame);
            Settle(held, limits, key, Offer(held.sets[key], d, info, admitted), size)
  }

  /** Start a set for a key and enter its deadline. */
  function Open(r: Reassembler, limits: Limits, key: Key, d: Datagram, frame: nat): Reassembler {
    r.(sets := r.sets[key := NewSet(d, frame)],
       deadlines := if Deadline(limits, frame).Some? then r.deadlines + {(Deadline(limits, frame).value, key)} else r.deadlines)
  }

  /** Record what an offer did to its set. */
  function Settle(r: Reassembler, limits: Limits, key: Key, step: SetStep, size: nat): (Reassembler, Result<Outcome>) {
    match step
    case SetRejected(s, code) =>
      (r.(sets := r.sets[key := s], retained := if code == LengthOverflow then size else r.retained),
       Ok(Rejected(Notice(code, s.packets))))
    case SetPending(s) => (r.(sets := r.sets[key := s], retained := size), Ok(Pending))
    case SetReady(s) =>
      var stored := r.(sets := r.sets[key := s], retained := size);
      if PartsLength(s.parts) > size then (stored, Err(Limit("fragment_state")))
      else (Remove(stored, limits, key),
            Ok(Complete(s.template.(payload := Joined(s.parts, |s.parts|), fragment := None), s.packets)))
  }

  /** The set's lifetime has passed when frame f is reached. */
  predicate Due(limits: Limits, s: FragmentSet, frame: nat) {
    Deadline(limits, s.firstFrame).Some? && Deadline(limits, s.firstFrame).value <= frame
  }
}
