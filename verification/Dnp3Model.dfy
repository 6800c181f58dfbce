/**
 DNP3 reassembly. Link frames with good checksums carry transport segments, transport segments make
 application fragments, and application fragments make messages. State is kept per address pair, and
 any discontinuity drops the state that it touches.
 */
module Dnp3Model {
  import opened Common
  import opened Provenance

  datatype Address = Address(source: u16, destination: u16)

  /** A link frame with good checksums, as bytes [start, start + |raw|) of one stream chunk. */
  datatype Frame = Frame(chunk: nat, start: nat, control: u8, address: Address, userData: Evidence, raw: Evidence) {
    predicate Forward() {
      control / 128 == 1
    }

    predicate Primary() {
      (control / 64) % 2 == 1
    }

    function LinkFunction(): nat {
      control % 16
    }

    predicate CarriesUserData() {
      Primary() && LinkFunction() in {3, 4}
    }

    predicate ReservedBit() {
      !Primary() && (control / 32) % 2 == 1
    }

    predicate UnknownFunction() {
      if Primary() then LinkFunction() !in {0, 1, 2, 3, 4, 9} else LinkFunction() !in {0, 1, 11, 14, 15}
    }

    function End(): nat {
      start + |raw.data|
    }
  }

  /** The transport header is the first octet of the user data. */
  function Sequence(header: byte): nat {
    header % 64
  }

  predicate First(header: byte) {
    (header / 64) % 2 == 1
  }

  predicate Last(header: byte) {
    header / 128 == 1
  }

  function NextSegment(sequence: nat): nat {
    (sequence + 1) % 64
  }

  function NextFragment(sequence: nat): nat {
    (sequence + 1) % 16
  }

  /** Segments of one application fragment collected so far; `accepted` are the frames that added bytes. */
  datatype Assembly = Assembly(
    lastSequence: nat,
    seen: map<nat, seq<byte>>,
    direction: bool,
    bytes: Evidence,
    frames: seq<nat>,
    accepted: seq<nat>)

  datatype Class = Request | Response | Unsolicited | Confirm | UnknownClass

  datatype Fragment = Fragment(
    address: Address,
    control: u8,
    function_: u8,
    class_: Class,
    iin: Option<u16>,
    frames: seq<nat>,
    accepted: seq<nat>,
    raw: Evidence,
    objects: Evidence)
  {
    function SequenceNumber(): nat {
      control % 16
    }

    predicate First() {
      control / 128 == 1
    }

    predicate Final() {
      (control / 64) % 2 == 1
    }
  }

  datatype AppKey = AppKey(address: Address, class_: Class)

  /** Fragments of one message collected so far. */
  datatype App = App(
    direction: bool,
    address: Address,
    function_: u8,
    firstSequence: nat,
    lastSequence: nat,
    class_: Class,
    fragments: seq<nat>,
    objects: Evidence,
    packets: set<PacketId>)

  datatype Message = Message(
    address: Address,
    function_: u8,
    firstSequence: nat,
    class_: Class,
    complete: bool,
    fragments: seq<nat>,
    packets: set<PacketId>,
    objects: Evidence)

  datatype IssueCode =
    | ReservedControlBit
    | UnsupportedLinkFunction
    | LinkIssue(code: nat)
    | UnsupportedFunctionWithData
    | DirectionChanged
    | DuplicateSegment
    | ReorderedDuplicate
    | ConflictingDuplicate
    | RestartBeforeFin
    | OrphanSegment
    | SegmentGap
    | InvalidApplicationHeader
    | UnsupportedApplicationFunction
    | FragmentGap
    | OrphanFragment
    | InterruptedByBadFrame
    | InterruptedByResync
    | CrcFailure
    | InvalidFrame
    | RejectedRange
    | BoundaryLost
    | Resynchronized
    | TrailingBytes
    | IncompleteTransport

  datatype Issue = Issue(code: IssueCode, packets: set<PacketId>, at: int)

  datatype Rejected = Rejected(at: int, declared: Option<nat>, incomplete: bool, raw: Evidence)

  datatype Output = Output(
    frames: seq<Frame>,
    fragments: seq<Fragment>,
    messages: seq<Message>,
    issues: seq<Issue>,
    rejected: seq<Rejected>)

  /** The output so far, the open assemblies, and where the current unbroken run of frames begins. */
  datatype Work = Work(out: Output, transport: map<Address, Assembly>, apps: map<AppKey, App>, runStart: nat)

  // ---------------------------------------------------------------- output

  function Report(w: Work, code: IssueCode, packets: set<PacketId>, at: int, limits: Limits): Result<Work> {
    if |w.out.issues| >= limits.maxProtocolMessages then Err(Limit("dnp3_issues"))
    else Ok(w.(out := w.out.(issues := w.out.issues + [Issue(code, packets, at)])))
  }

  function ReportIf(condition: bool, w: Work, code: IssueCode, packets: set<PacketId>, at: int, limits: Limits): Result<Work> {
    if condition then Report(w, code, packets, at, limits) else Ok(w)
  }

  function MessageOf(a: App, complete: bool): Message {
    Message(a.address, a.function_, a.firstSequence, a.class_, complete, a.fragments, a.packets, a.objects)
  }

  /** Close an open message and put it out. */
  function Emit(w: Work, key: AppKey, complete: bool, limits: Limits): Result<Work>
    requires key in w.apps
  {
    if |w.out.messages| >= limits.maxProtocolMessages then Err(Limit("dnp3_messages"))
    else Ok(w.(out := w.out.(messages := w.out.messages + [MessageOf(w.apps[key], complete)]), apps := w.apps - {key}))
  }

  function EmitIfOpen(w: Work, key: AppKey, complete: bool, limits: Limits): Result<Work> {
    if key in w.apps then Emit(w, key, complete, limits) else Ok(w)
  }

  /** A discontinuity at an address ends every message it has open, class by class. */
  function Interrupt(w: Work, a: Address, limits: Limits): Result<Work> {
    var w1 :- EmitIfOpen(w, AppKey(a, Request), false, limits);
    var w2 :- EmitIfOpen(w1, AppKey(a, Response), false, limits);
    var w3 :- EmitIfOpen(w2, AppKey(a, Unsolicited), false, limits);
    var w4 :- EmitIfOpen(w3, AppKey(a, Confirm), false, limits);
    EmitIfOpen(w4, AppKey(a, UnknownClass), false, limits)
  }

  /** Report, drop the open transport assembly and end the open messages of an address. */
  function Drop(w: Work, a: Address, code: IssueCode, packets: set<PacketId>, at: int, limits: Limits): Result<Work> {
    var w1 :- Report(w, code, packets, at, limits);
    Interrupt(w1.(transport := w1.transport - {a}), a, limits)
  }

  // ---------------------------------------------------------------- application layer

  function ClassOf(function_: u8, unsolicited: bool): Class {
    if function_ == 0 then Confirm
    else if 1 <= function_ <= 31 && !unsolicited then Request
    else if function_ == 0x81 && !unsolicited then Response
    else if function_ == 0x82 && unsolicited then Unsolicited
    else UnknownClass
  }

  predicate IsResponse(function_: u8) {
    function_ == 0x81 || function_ == 0x82
  }

  function HeaderLength(function_: u8): nat {
    if IsResponse(function_) then 4 else 2
  }

  function ParseFragment(a: Assembly, address: Address): Result<Fragment> {
    var raw := a.bytes.data;
    if |raw| < 2 then Err(Error(Truncated, "dnp3_application"))
    else
      var control, function_ := raw[0], raw[1];
      if |raw| < HeaderLength(function_) then Err(Error(Truncated, "dnp3_iin"))
      else
        var objects :- Slice(a.bytes, HeaderLength(function_), |raw|);
        Ok(Fragment(
          address, control, function_, ClassOf(function_, (control / 16) % 2 == 1),
          if IsResponse(function_) then Some(raw[2] + 256 * (raw[3] as int)) else None,
          a.frames, a.accepted, a.bytes, objects))
  }

  /** The packets of all frames a fragment used. */
  function FramePackets(frames: seq<Frame>, ids: seq<nat>): set<PacketId> {
    set j, p | 0 <= j < |ids| && ids[j] < |frames| && p in Packets(frames[ids[j]].raw) :: p
  }

  function OpenApp(f: Fragment, id: nat, direction: bool, packets: set<PacketId>): App {
    App(direction, f.address, f.function_, f.SequenceNumber(), f.SequenceNumber(), f.class_, [id], f.objects, packets)
  }

  predicate Continues(a: App, f: Fragment) {
    f.SequenceNumber() == NextFragment(a.lastSequence) && f.function_ == a.function_
  }

  function ExtendApp(a: App, f: Fragment, id: nat, packets: set<PacketId>, limits: Limits): Result<App> {
    var objects :- Append(a.objects, f.objects, limits.maxApplicationBytes);
    Ok(a.(lastSequence := f.SequenceNumber(), fragments := a.fragments + [id], packets := a.packets + packets, objects := objects))
  }

  /** Place a new fragment in its message. */
  function AddFragment(w: Work, f: Fragment, direction: bool, at: int, limits: Limits): Result<Work> {
    if |w.out.fragments| >= limits.maxProtocolMessages then Err(Limit("dnp3_fragments"))
    else
      var id, key := |w.out.fragments|, AppKey(f.address, f.class_);
      var packets := FramePackets(w.out.frames, f.frames);
      var w1 :- ReportIf(f.class_ == UnknownClass, w, UnsupportedApplicationFunction, packets, at, limits);
      var w2 := w1.(out := w1.out.(fragments := w1.out.fragments + [f]));
      var w3 :- JoinMessage(w2, f, id, key, direction, packets, at, limits);
      if f.Final() then EmitIfOpen(w3, key, true, limits) else Ok(w3)
  }

  function JoinMessage(w: Work, f: Fragment, id: nat, key: AppKey, direction: bool, packets: set<PacketId>, at: int, limits: Limits): Result<Work> {
    if f.First() then
      var w1 :- EmitIfOpen(w, key, false, limits);
      Ok(w1.(apps := w1.apps[key := OpenApp(f, id, direction, packets)]))
    else if key !in w.apps then Report(w, OrphanFragment, packets, at, limits)
    else if Continues(w.apps[key], f) then
      var a :- ExtendApp(w.apps[key], f, id, packets, limits);
      Ok(w.(apps := w.apps[key := a]))
    else
      var w1 :- Report(w, FragmentGap, packets, at, limits);
      Emit(w1, key, false, limits)
  }

  // ---------------------------------------------------------------- transport layer

  function OpenAssembly(data: Evidence, id: nat, direction: bool, limits: Limits): Result<Assembly>
    requires data.data != []
  {
    if |data.data| - 1 > limits.maxApplicationBytes then Err(Limit("dnp3_application_bytes"))
    else
      var bytes :- Slice(data, 1, |data.data|);
      var s := Sequence(data.data[0]);
      Ok(Assembly(s, map[s := data.data], direction, bytes, [id], [id]))
  }

  function ExtendAssembly(a: Assembly, data: Evidence, id: nat, limits: Limits): Result<Assembly>
    requires data.data != []
  {
    var tail :- Slice(data, 1, |data.data|);
    var bytes :- Append(a.bytes, tail, limits.maxApplicationBytes);
    var s := Sequence(data.data[0]);
    if |a.frames| >= limits.maxProtocolMessages then Err(Limit("dnp3_transport_frames"))
    else Ok(a.(lastSequence := s, seen := a.seen[s := data.data], bytes := bytes, frames := a.frames + [id], accepted := a.accepted + [id]))
  }

  /** The assembly is complete: parse the fragment and hand it on. */
  function Complete(w: Work, a: Assembly, address: Address, direction: bool, at: int, limits: Limits): Result<Work> {
    var w1 := w.(transport := w.transport - {address});
    match ParseFragment(a, address)
    case Err(_) => Drop(w1, address, InvalidApplicationHeader, Packets(a.bytes), at, limits)
    case Ok(f) => AddFragment(w1, f, direction, at, limits)
  }

  predicate Seen(a: Assembly, data: seq<byte>)
    requires data != []
  {
    Sequence(data[0]) != NextSegment(a.lastSequence) && Sequence(data[0]) in a.seen
  }

  function RepeatSegment(w: Work, f: Frame, id: nat, at: int, limits: Limits): Result<Work>
    requires f.address in w.transport && f.userData.data != []
  {
    var a := w.transport[f.address];
    if |a.frames| >= limits.maxProtocolMessages then Err(Limit("dnp3_transport_frames"))
    else
      var code := if a.lastSequence == Sequence(f.userData.data[0]) then DuplicateSegment else ReorderedDuplicate;
      Report(w.(transport := w.transport[f.address := a.(frames := a.frames + [id])]), code, Packets(f.userData), at, limits)
  }

  /** A segment with FIR opens a new assembly, whatever was open before. */
  function BeginSegment(w: Work, f: Frame, id: nat, at: int, limits: Limits): Result<Work>
    requires f.userData.data != []
  {
    var w1 :-
      if f.address in w.transport
      then Drop(w, f.address, RestartBeforeFin, Packets(w.transport[f.address].bytes), at, limits)
      else Ok(w);
    var a :- OpenAssembly(f.userData, id, f.Forward(), limits);
    FinishSegment(w1, a, f, at, limits)
  }

  function FinishSegment(w: Work, a: Assembly, f: Frame, at: int, limits: Limits): Result<Work>
    requires f.userData.data != []
  {
    if Last(f.userData.data[0]) then Complete(w, a, f.address, f.Forward(), at, limits)
    else Ok(w.(transport := w.transport[f.address := a]))
  }

  function Segment(w: Work, f: Frame, id: nat, at: int, limits: Limits): Result<Work>
    requires f.userData.data != []
  {
    var data := f.userData.data;
    var open := f.address in w.transport;
    if open && Seen(w.transport[f.address], data) && w.transport[f.address].seen[Sequence(data[0])] == data then
      RepeatSegment(w, f, id, at, limits)
    else if open && !First(data[0]) && Seen(w.transport[f.address], data) then
      Drop(w, f.address, ConflictingDuplicate, Packets(w.transport[f.address].bytes) + Packets(f.userData), at, limits)
    else if First(data[0]) then BeginSegment(w, f, id, at, limits)
    else if !open then Drop(w, f.address, OrphanSegment, Packets(f.userData), at, limits)
    else if Sequence(data[0]) != NextSegment(w.transport[f.address].lastSequence) then
      Drop(w, f.address, SegmentGap, Packets(w.transport[f.address].bytes) + Packets(f.userData), at, limits)
    else
      var a :- ExtendAssembly(w.transport[f.address], f.userData, id, limits);
      FinishSegment(w, a, f, at, limits)
  }

  /** Some open state of the address was built from frames of the other direction. */
  predicate DirectionDiffers(w: Work, a: Address, direction: bool) {
    || (a in w.transport && w.transport[a].direction != direction)
    || (exists c: Class :: AppKey(a, c) in w.apps && w.apps[AppKey(a, c)].direction != direction)
  }

  // ---------------------------------------------------------------- one frame

  /** Whether a frame violates the link layer's own rules, judged from control, addresses and length. */
  type LinkRules = (u8, u16, u16, nat) -> Option<nat>

  function PushFrame(w: Work, f: Frame): Work {
    w.(out := w.out.(frames := w.out.frames + [f]))
  }

  function AcceptFrame(w: Work, f: Frame, at: int, limits: Limits, rules: LinkRules): Result<Work> {
    if |w.out.frames| >= limits.maxProtocolMessages then Err(Limit("dnp3_frames"))
    else
      var id := |w.out.frames|;
      var w1 :- ReportIf(f.ReservedBit(), w, ReservedControlBit, Packets(f.raw), at, limits);
      var w2 :- ReportIf(f.UnknownFunction(), w1, UnsupportedLinkFunction, Packets(f.raw), at, limits);
      Interpret(PushFrame(w2, f), f, id, at, limits, rules(f.control, f.address.source, f.address.destination, |f.userData.data|))
  }

  function Interpret(w: Work, f: Frame, id: nat, at: int, limits: Limits, problem: Option<nat>): Result<Work> {
    if problem.Some? then Drop(w, f.address, LinkIssue(problem.value), Packets(f.raw), at, limits)
    else if f.userData.data == [] then Ok(w)
    else if !f.CarriesUserData() then Drop(w, f.address, UnsupportedFunctionWithData, Packets(f.userData), at, limits)
    else
      var w1 :-
        if DirectionDiffers(w, f.address, f.Forward())
        then Drop(w, f.address, DirectionChanged, Packets(f.userData), at, limits)
        else Ok(w);
      Segment(w1, f, id, at, limits)
  }
}
