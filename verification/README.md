# Capture evidence engine: verified model

This project models the core of an offline capture-evidence engine and proves what its parts promise:
TCP stream reconstruction and connection tracking, byte provenance, IP fragment reassembly, the
disk-retained TCP history, DNP3 reassembly, the capture container codecs and the incremental digests.
`dafny verify dfyconfig.toml` checks everything.

## How to read it

Each component has a value-level model (datatypes and functions) and lemmas over it. Where the engine
works by changing fields or running loops, a class or a method has the same fields and loops, and its
`ensures` ties it to the value-level model.

- `Common`, `Boundaries`, `Permutations`, `Lexicographic`: shared vocabulary, ordered sets, rearranged
  sequences, and the order of records.
- `Provenance`, `EvidenceBytes`: bytes with the packet bytes they stand for.
- `StreamSweep`, `StreamTheorems`, `StreamConservation`, `StreamAssembler`, `StreamOrder`, `StreamEngine`:
  one direction of a TCP connection.
- `TcpTracking`, `TcpSafety`, `TcpTracker`, `TcpReconstruction`: connection generations and their streams.
- `FragmentSets`, `FragmentParts`, `FragmentSafety`, `FragmentRuns`, `FragmentReassembler`,
  `FragmentHistory`, `FragmentOwners`, `FragmentOrder`, `FragmentTiling`, `FragmentArrival`: IP fragments.
- `EngineModel`, `Engine`: the packet loop over reassembler and tracker.
- `Codec`, `CodecBuffers`, `HistoryModel`, `HistoryInput`, `Epochs`, `TupleStates`, `TupleCandidates`,
  `TupleSafety`, `TupleIdentity`, `TupleExamples`, `TupleCodec`, `DiskBudgets`, `StateStore`, `StoreRuns`:
  the history's tuple states and their bounded store.
- `RowIndex`, `MergeSort`, `ExternalSort`, `HistoryIndex`, `RowSearch`, `RangeQuery`, `GenerationPages`:
  the range index and its queries.
- `JournalRecords`, `JournalHeader`, `Journal`, `JournalFiles`: the chained journal; `QueryEvidence`: what
  a query finds behind a row.
- `Dnp3Model`, `Dnp3Shape`, `Dnp3Safety`, `Dnp3Transport`, `Dnp3Link`, `Dnp3Conservation`, `Dnp3Effects`,
  `Dnp3Isolation`, `Dnp3Delivery`, `Dnp3Messages`, `Dnp3Mixed`, `Dnp3Decode`, `Dnp3Encode`: DNP3 link,
  transport and application layers.
- `Clock`, `CaptureModel`, `CaptureParity`, `CaptureFields`, `CaptureBlocks`, `CaptureRoundTrip`,
  `ClassicRoundTrip`: capture files and clocks.
- `InternetChecksums`, `Sha256Buffering`: incremental digests.

Modelling choices. SHA-256 outside its own module, CRC-16, UTF-8 validity and the DNP3 link rules are
function parameters, so every theorem holds for any such function; where a digest collision could
matter it appears as an explicit case. Files are byte sequences (runs of the external sort are row
sequences, with the row codec proved separately). Lists of packet identifiers that the engine sorts and
deduplicates are sets. Machine integers are unbounded where the engine checks for overflow and reports
it, and carry explicit bounds otherwise. An error is a code and a field; message texts are dropped.
Two names hold history the engine does not store: `Assembly.accepted` and `Fragment.accepted` in
`Dnp3Model` list the frames that added bytes, and `Work.runStart` marks where the current unbroken run
of frames begins.

Findings. The header-checksum state of a reassembled datagram is taken from whichever fragment arrives
first unless some fragment's is invalid, so two arrival orders give equal datagrams if and only if one
fragment is invalid or both first fragments carry the same state (`FragmentTiling.ArrivalOrderIrrelevant`);
fragments that come from the packet decoders always satisfy this (`FragmentTiling.DecodedOrderIrrelevant`).
`FragmentTiling.ChecksumFollowsArrival` gives two orders that differ. A bare SYN is placed at offset 0
whatever anchor its generation already has, so its placement is congruent if and only if the anchor is
the SYN's successor (`TupleSafety.PlacementsCongruent`); `TupleExamples.BareSynMisplaced` reaches a
generation where it is not. The journal's writer accepts a source larger than the recorded limit, and
its reader then refuses the file: a written journal opens if and only if the source fits
(`Journal.JournalSurvivesCut`), and `JournalHeader.OversizedSourceRefused` gives one that does not.

## Model

| member | source | states |
|---|---|---|
| `Provenance.FromPacketView` | src/provenance.rs:42-58 | A packet's bytes are their own origins; the layout is valid exactly when the packet offset cannot overflow |
| `Provenance.SliceView` | src/provenance.rs:72-111 | Slicing succeeds exactly on ranges inside the data and is subsequence on bytes with origins, keeping the canonical form |
| `Provenance.AppendView` | src/provenance.rs:113-153 | Appending succeeds exactly within the limit and is concatenation on bytes with origins, keeping the canonical form |
| `Provenance.CanonicalUnique` | src/provenance.rs:113-153 | Spans stay maximally coalesced: two reachable values that show the same bytes from the same packet positions are identical |
| `Provenance.WindowPacketsExact` | src/provenance.rs:154-159 | The packets named for a window are exactly those its bytes came from |
| `EvidenceBuffer.ClipSpans` | src/provenance.rs:72-111 | The slicing loop computes the clipped span list |
| `EvidenceBuffer.ExtendSpans` | src/provenance.rs:125-151 | The appending loop computes the coalesced span list |
| `EvidenceBuffer.EvidenceBytes.Append` | src/provenance.rs:113-153 | The in-place append leaves exactly the appended value, or nothing changed on error |
| `EvidenceBuffer.EvidenceBytes.Validate` | src/provenance.rs:162-181 | The cursor loop accepts exactly the valid layouts |
| `StreamAssembly.DeltaUnique` | src/tcp.rs:65-76 | The signed distance is the only offset inside the half space that leads from anchor to sequence |
| `StreamAssembly.DeltaAmbiguous` | src/tcp.rs:65-76 | Exactly the antipodal sequence number has no distance |
| `StreamAssembly.PushSound` | src/tcp.rs:90-137 | Every accepted push keeps segments within bounds, account and span |
| `StreamAssembly.EndSound` | src/tcp.rs:138-158 | Recording a FIN keeps the assembler sound |
| `StreamSweep.ChunksSound` | src/tcp.rs:193-287 | Chunks are ordered and separated, hold exactly the emitted positions, and each byte and origin is the policy's choice among the covering segments |
| `StreamSweep.GapsSound` | src/tcp.rs:193-287 | Gaps are ordered and hold exactly the uncovered and the rejected positions, each under its reason |
| `StreamTheorems.ConflictMeans` | src/tcp.rs:239-278 | An elementary interval conflicts exactly when two covering segments differ somewhere inside it |
| `StreamTheorems.ConflictPacketsExact` | src/tcp.rs:239-278 | A conflict lists exactly the packets whose bytes were placed inside it |
| `StreamTheorems.PositionsSettled` | src/tcp.rs:159-289 | Every position of the span is a chunk byte, missing or rejected, exactly one of these; every disagreement lies in a conflict |
| `StreamAssembly.FinishReconstructs` | src/tcp.rs:159-289 | The finished stream tiles the span from lowest to highest boundary, position by position, under every policy |
| `StreamAssembly.FinishConserves` | src/tcp.rs:193-287 | Without conflicts, retained bytes equal chunk bytes plus observed duplicates |
| `StreamConservation.RetainedConserved` | src/tcp.rs:193-287 | The same conservation for the sweep itself, over any bounded segments |
| `StreamConservation.OrderIrrelevant` | src/tcp.rs:193-287 | Under rejection, permuting segments changes no chunk offset or byte, gap or conflict |
| `StreamConservation.DuplicatesPermuted` | src/tcp.rs:193-287 | Without conflicts the duplicate count is the same in every order |
| `StreamOrder.RunAccepts` | src/tcp.rs:90-158 | After a SYN, a run of pushes and FINs in any interleaving succeeds exactly when the arrivals are acceptable as a whole |
| `StreamOrder.ArrivalOrderIrrelevant` | src/tcp.rs:90-289 | A reordering of pushes and FINs is accepted exactly when the original is, and then rebuilds the same stream |
| `StreamEngine.BuildEvents` | src/tcp.rs:190-208 | The event map holds exactly the starts and ends of the segments at every boundary |
| `StreamEngine.SweepCells` | src/tcp.rs:193-287 | The sweep loop with its active set computes the specified chunks, gaps, conflicts and duplicates |
| `StreamEngine.StreamAssembler.Push` | src/tcp.rs:90-137 | The field updates of a push are exactly the specified ones; errors change nothing |
| `StreamEngine.StreamAssembler.EndAt` | src/tcp.rs:138-158 | The field updates of a FIN are exactly the specified ones |
| `StreamEngine.StreamAssembler.Finish` | src/tcp.rs:159-289 | Finishing returns exactly the specified stream, and fails exactly for payload beyond the FIN |
| `StreamEngine.FinishAssembly` | src/tcp.rs:159-289 | The sweep with its real appends: with valid limits it fails exactly for payload beyond the FIN, so the limit on appending to a chunk is never reached |
| `TcpTracking.KeySymmetric` | src/tcp.rs:298-320 | Both directions of a conversation share one key and differ in direction |
| `TcpSafety.IngestConsistent` | src/tcp.rs:390-623 | Every step keeps flow ids, generation numbers, key lists and the payload account consistent |
| `TcpSafety.OnlyAssignmentChanges` | src/tcp.rs:465-623 | An ambiguous, unassigned or failing segment leaves the tracker unchanged |
| `TcpSafety.AssignmentLocal` | src/tcp.rs:465-623 | An assigned segment changes exactly one generation, of its own key |
| `TcpSafety.AssignmentUnambiguous` | src/tcp.rs:513-566 | Apart from a bare SYN, a segment joins an existing generation only when no other unexpired plausible one exists |
| `TcpSafety.AssignedLegally` | src/tcp.rs:437-566 | A generation that receives a segment agrees with its SYN, and is open or receives a final acknowledgement |
| `TcpSafety.IngestGrows` | src/tcp.rs:465-623 | A closed generation gains only bare acknowledgements, and nothing is assigned after a RST |
| `TcpSafety.RunConsistent` | src/tcp.rs:465-623 | Consistency after every run from an empty tracker |
| `TcpSafety.RunGrows` | src/tcp.rs:465-623 | The growth rules between any two points of a run |
| `TcpSafety.IngestSourced` | src/tcp.rs:567-623 | The generation that takes a segment gains exactly its packets, the others keep theirs, and every accepted payload comes from packets of its own generation |
| `TcpTrackerEngine.Classify` | src/tcp.rs:513-532 | The classification loop finds exactly the candidate, closed and final-acknowledgement generations |
| `TcpTrackerEngine.Decide` | src/tcp.rs:491-566 | The decision equals the specified selection |
| `TcpTrackerEngine.TcpTracker.IngestWithPackets` | src/tcp.rs:465-623 | The field updates of one segment are exactly the specified ones |
| `TcpReconstruction.Feed` | src/tcp.rs:632-654 | Feeding a segment is pushing its payload and then recording its FIN, stopping at the first refusal |
| `TcpReconstruction.FinishFlow` | src/tcp.rs:624-695 | Each direction of a generation is exactly the assembly of everything it observed, or absent with its error reported and no other |
| `TcpReconstruction.StreamFromFlow` | src/tcp.rs:603-695 | Every byte of a rebuilt stream comes from a packet of its own flow |
| `TcpReconstruction.ByteProvenance` | src/engine.rs:315-372 | In a finished analysis every rebuilt byte leads back to a captured packet whose disposition names that flow |
| `FragmentParts.CursorCovers` | src/fragment.rs:253-276 | The coverage cursor reaches the terminal length exactly when the parts cover everything below it |
| `FragmentParts.JoinedOrigins` | src/fragment.rs:281-296 | Every joined byte, with its origin, is a byte of some part at that position |
| `FragmentParts.JoinedAgrees` | src/fragment.rs:281-296 | The joined payload agrees with every part at every position it holds |
| `FragmentSafety.VerdictNone` | src/fragment.rs:208-244 | A part without a verdict fits its set: no contradiction with terminal length or bytes |
| `FragmentSafety.OfferSound` | src/fragment.rs:181-280 | Offering a fragment keeps the set sound; quarantined sets refuse, and only a covered set is ready |
| `FragmentSafety.CompletedPayload` | src/fragment.rs:253-296 | A completed payload has the terminal length, agrees in bytes with every accepted part, and each byte has the origin some part gives it |
| `FragmentRuns.PushSound` | src/fragment.rs:88-297 | Every push keeps the byte account equal to live part lengths within its limit, and the deadline index equal to the live sets |
| `FragmentRuns.PacketsConserved` | src/fragment.rs:88-297 | After a push each earlier live packet and each new one is live or handed back, and nothing else is |
| `FragmentRuns.OtherSetsUntouched` | src/fragment.rs:88-297 | A push for one datagram never touches another's set |
| `FragmentRuns.QuarantineHolds` | src/fragment.rs:188-244 | A quarantined set stays so through every push and completes nothing |
| `FragmentHistory.OfferExplains` | src/fragment.rs:181-280 | A set stays exactly what its admitted fragments say: parts, terminal length, packets, and the header fields of its latest offset-zero fragment |
| `FragmentHistory.RunExplained` | src/fragment.rs:55-297 | The same for every live set after every run of pushes and expiries |
| `FragmentHistory.AdmittedWerePushed` | src/fragment.rs:88-297 | What a set was built from was pushed in that run |
| `FragmentHistory.RunCompletes` | src/fragment.rs:88-297 | Over every run, overlapping or not: a completed datagram ends where every terminal fragment ends, agrees with every fragment, takes each origin from one of them, and has the protocol and header length of the latest offset-zero fragment |
| `FragmentOwners.PushApart` | src/fragment.rs:88-297 | Every packet is in at most one live set; a completed datagram's packets are in none, and its bytes come from those packets alone |
| `FragmentTiling.TilingCompletes` | src/fragment.rs:181-280 | Disjoint fragments that tile a datagram: every proper prefix is pending, exactly the last one completes |
| `FragmentTiling.TilingPayload` | src/fragment.rs:281-296 | Every byte of the completed payload is, with its origin, the byte of its only tile |
| `FragmentTiling.ArrivalOrderIrrelevant` | src/fragment.rs:153-296 | Every arrival order completes with the same packets and the same datagram up to its header-checksum state; equal datagrams exactly under the stated condition |
| `FragmentTiling.ChecksumFollowsArrival` | src/fragment.rs:153-207 | Two halves of a datagram whose two arrival orders give different datagrams |
| `FragmentTiling.DecodedOrderIrrelevant` | src/fragment.rs:153-296 | For decoded fragments the datagram is identical in every arrival order |
| `FragmentArrival.LastPushCompletes` | src/fragment.rs:88-297 | The same through the public push: all but the last pending, the last complete with every packet, and the reassembler restored |
| `FragmentEngine.JoinAll` | src/fragment.rs:281-296 | The joining loop computes the specified payload |
| `FragmentEngine.FragmentReassembler.Expire` | src/fragment.rs:55-73 | Expiry removes exactly the sets whose lifetime passed and reports exactly their packets |
| `FragmentEngine.FragmentReassembler.RemoveSet` | src/fragment.rs:74-87 | A set leaves with its deadline and its bytes |
| `FragmentEngine.FragmentReassembler.Push` | src/fragment.rs:88-297 | The field updates of a push are exactly the specified ones |
| `FragmentEngine.FragmentReassembler.Finish` | src/fragment.rs:298-310 | The notices at the end name exactly the live packets |
| `Engine.EachPacket` | src/engine.rs:164-196 | The lookup succeeds exactly when every identifier is known, and then marks exactly those packets |
| `Engine.SettleNotices` | src/engine.rs:197-203 | Settling notices never misses, leaves only still-live packets unsettled, and changes no other packet |
| `Engine.Deliver` | src/engine.rs:300-372 | A complete datagram ends in a final disposition; an assigned segment gives its packets to exactly one flow, anything else leaves the flows alone |
| `Engine.Dispatch` | src/engine.rs:260-372 | One packet keeps the rule that live fragment sets answer for every unsettled packet, and that flows hold exactly the packets assigned to them |
| `Engine.Analyze` | src/engine.rs:204-413 | On every capture all packets end with a final disposition and every flow of the tracker holds exactly the packets whose disposition names it; the identity and conservation checks can never fail, and the only other failures are bad configurations, misnumbered frames, the UDP stage and budgets |
| `Epochs.EpochCandidatesExact` | history/src/state.rs:405-430 | The enumeration is, in ascending order, exactly all congruent offsets of the range; it fails exactly when there are more than allowed |
| `Epochs.EpochCandidatesRefused` | history/src/state.rs:405-415 | Exactly invalid ranges and budgets are refused as such |
| `TupleCandidates.EpochsExact` | history/src/state.rs:280-302 | Every enumeration made by ingest is over an ordered range, and is exact |
| `TupleCandidates.CandidatesExact` | history/src/state.rs:264-314 | For anything but a bare SYN the candidates are exactly the places its generations' evidence allows |
| `TupleSafety.SelectExact` | history/src/state.rs:315-335 | A candidate is acted on exactly when it is the only one, or the declared policy makes it the strictly nearest in one generation |
| `TupleSafety.ExtendRecords` | history/src/state.rs:343-384 | A placed segment is recorded: bounds, SYN, anchor, FIN and RST, in its own direction only |
| `TupleSafety.IngestSafe` | history/src/state.rs:210-401 | Bounds include 0, evidence is sticky, closing is monotone, at most one placement is selected, only the selected generation changes, errors change nothing; placements are distinct when identities are |
| `TupleSafety.PlacementsCongruent` | history/src/state.rs:236-314 | Placements are pairwise distinct as generation and offset; in a generation anchored before, a placement is congruent to the segment's sequence number if and only if the segment is not a bare SYN or the anchor is its successor |
| `TupleExamples.BareSynMisplaced` | history/src/state.rs:236-263 | A reachable tuple and a bare SYN that is placed at 0 although its sequence number stands at -10 |
| `TupleSafety.RunSafe` | history/src/state.rs:210-401 | The same between any two points of any run |
| `TupleIdentity.SeedInjective` | history/src/state.rs:183-194 | What a generation identity hashes determines capture, tuple, first frame and index |
| `TupleIdentity.RunDistinct` | history/src/state.rs:183-401 | Over every run the generations have different identities if and only if no two different seeds have equal digests, and then every decision's placements are pairwise distinct |
| `HistoryModel.KeyCodec` | history/src/model.rs:199-262 | A tuple encodes exactly when canonical, in at most 8325 bytes, and decodes to itself |
| `HistoryInput.InputCodec` | history/src/model.rs:313-456 | An observation reads back as stored; sending it through its codec only re-derives its header fields |
| `TupleCodec.GenerationRoundTrip` | history/src/state.rs:33-68 | A generation reads back as itself in at most 129 bytes |
| `TupleCodec.StateRoundTrip` | history/src/state.rs:155-182 | Every reachable tuple state encodes and decodes to itself |
| `TupleCodec.FileRoundTrip` | history/src/state.rs:463-530 | A spilled file fits the reload bound, restores its state, and is refused for any other tuple |
| `CodecBuffers.Encoder.Bytes` | history/src/codec.rs:28-32 | The growing output holds the length-prefixed field; an oversized one changes nothing |
| `CodecBuffers.Decoder.TakeBytes` | history/src/codec.rs:63-74 | The cursor reads exactly the next bytes or reports truncation |
| `CodecBuffers.Decoder.Text` | history/src/codec.rs:115-126 | Length limit, truncation and UTF-8 validity decide exactly as specified |
| `DiskBudgets.DiskBudget.Charge` | history/src/journal.rs:32-43 | Bytes are taken exactly when they fit; a refusal changes nothing |
| `DiskBudgets.DiskBudget.Release` | history/src/journal.rs:44-50 | Giving back more than was taken is refused |
| `StateStore.OneKeyPerPlace` | history/src/state.rs:463-537 | No two known tuples share a place in memory or on disk |
| `StateStore.LoadExact` | history/src/state.rs:499-525 | A file is read back exactly for the tuple it was written for, as the state it held |
| `StateStore.Store.Spill` | history/src/state.rs:463-473 | Spilling moves one tuple to exactly one file and pays for it |
| `StateStore.Store.Warm` | history/src/state.rs:489-528 | Bringing a tuple into memory changes no known state and keeps quota equal to live file bytes |
| `StateStore.Store.IngestTuple` | history/src/state.rs:474-537 | The bounded store answers what an unbounded map would; it stops only for a refused input, a full disk, an exhausted clock or a collision |
| `StateStore.Store.Finish` | history/src/state.rs:538-546 | At the end every tuple is in its own file; this succeeds exactly when the store still works and the disk budget holds the files of all tuples in memory |
| `StoreRuns.Replay` | history/src/state.rs:474-537 | Over a whole run the store's decisions equal the unbounded map's |
| `StoreRuns.RunIgnoresHot` | history/src/state.rs:487-537 | The reference decisions do not depend on how many tuples are kept in memory |
| `RowIndex.RowRoundTrip` | history/src/index.rs:41-91 | A row encodes exactly when valid, fills one entry, and decodes to itself |
| `RowIndex.RowFileAt` | history/src/index.rs:261-270 | Entry n of an index file decodes to row n |
| `RowIndex.RowLeqAntisymmetric` | history/src/index.rs:29-40 | Rows that compare equal are equal |
| `RowIndex.PlaceLess` | history/src/index.rs:271-284 | Places compare by generation, then direction, then start |
| `MergeSort.Merge` | history/src/index.rs:199-228 | The heap merge of sorted runs is sorted, keeps every row, and pays for each |
| `ExternalSort.MergePass` | history/src/index.rs:194-238 | A pass keeps all rows in sorted runs, at least halves their number, and never needs more than one extra copy |
| `ExternalSort.Sort` | history/src/index.rs:132-243 | The sort terminates; its output is a sorted permutation with the right count; disk use stays within twice the raw bytes and ends at the output size; it fails only for stated reasons |
| `RowSearch.LowerBound` | history/src/index.rs:271-284 | The binary search returns the first row not below the place |
| `RowSearch.ScanBegins` | history/src/query.rs:170-171 | No row below the window's start minus 65535 overlaps it |
| `RowSearch.ScanEnds` | history/src/query.rs:189-191 | Where the scan stops, no later row overlaps |
| `HistoryIndex.AppendRows` | history/src/pipeline.rs:402-422 | The rows of a decision are written one per placement and paid for; it fails only for a span or the disk |
| `HistoryIndex.RowsDistinct` | history/src/pipeline.rs:398-424 | The rows of a journal are pairwise different if and only if no decision names a placement twice |
| `HistoryIndex.AcceptIndex` | history/src/query.rs:75-83 | The opening pass accepts exactly the strictly ascending indexes |
| `HistoryIndex.SortAndOpen` | history/src/index.rs:128-243 | The sorted file opens with exactly its rows, in the order queries rely on; it is refused as unsorted only if two rows are equal |
| `HistoryIndex.BuildIndex` | history/src/pipeline.rs:398-424 | From decisions to the opened index: exactly their rows, or a stated cause |
| `HistoryIndex.RunPlacesOnce` | history/src/state.rs:210-537 | Over a whole run no decision names a placement twice, unless two different seeds of one tuple have equal digests |
| `RangeQuery.Scan` | history/src/query.rs:170-226 | The windowed scan selects exactly what a linear scan would, at a cost of one entry per near row and what stands behind the overlapping ones |
| `RangeQuery.Compare` | history/src/query.rs:230-270 | One interval is reported exactly as its observations show it, at a cost of one step per observation and byte compared |
| `RangeQuery.Range` | history/src/query.rs:156-286 | The whole query: exact rows, tiling intervals, exact reports; it fails only for budgets, bad requests or unbacked rows, and answers whenever the budgets cover the near rows, the evidence behind them, and every comparison |
| `RangeQuery.PieceOf` | history/src/query.rs:227-231 | Every position of the request lies in exactly one piece |
| `RangeQuery.GapExact` | history/src/query.rs:230-270 | A position is a gap exactly when no row of the index holds it |
| `RangeQuery.ConflictExact` | history/src/query.rs:240-266 | A piece conflicts exactly when two holders differ in one of its bytes |
| `RangeQuery.CandidateExact` | history/src/query.rs:263-286 | Bytes are given exactly when all holders are selected and agree, and then they are everyone's |
| `QueryEvidence.DecisionRoundTrip` | history/src/state.rs:85-138 | A stored decision within its bounds reads back as itself |
| `QueryEvidence.TcpBodyRoundTrip` | history/src/pipeline.rs:157-169 | The record of an observation and its decision reads back as both |
| `QueryEvidence.RowFollows` | history/src/query.rs:198-222 | A row written for a placement leads through the journal back to exactly the payload it was written for |
| `QueryEvidence.AlwaysBacked` | history/src/pipeline.rs:398-424 | Over what the pipeline wrote, no query misses the evidence behind a row |
| `QueryEvidence.FollowedIsCaptured` | history/src/query.rs:100-222 | Whatever journal and index contain, a row that can be followed names an authentic record whose decision made its placement; its payload is that record's, and the capture shows every byte of it at a position the record's own observation witnesses |
| `GenerationPages.Generations` | history/src/query.rs:128-155 | A page holds, ascending and once each, the first generations behind the cursor |
| `JournalHeader.ConfigCodec` | history/src/model.rs:82-146 | A valid configuration decodes to itself |
| `JournalHeader.HeaderRoundTrip` | history/src/journal.rs:113-314 | A written header opens, whatever follows, exactly when the source size is within the recorded limit, and then as itself |
| `JournalHeader.OversizedSourceRefused` | history/src/journal.rs:136-314 | A header the writer accepts and the reader refuses |
| `JournalRecords.ReadsWhole` | history/src/journal.rs:322-379 | A whole record reads back as written and the reader stands before the next |
| `JournalRecords.ReadsCut` | history/src/journal.rs:322-379 | A record cut anywhere inside is reported as truncated |
| `Journal.CutJournal` | history/src/journal.rs:322-379 | A cut leaves exactly the whole records before it, then a clean end or truncation |
| `Journal.JournalSurvivesCut` | history/src/journal.rs:269-379 | The same from opening the file on, which succeeds exactly when the source size is within the recorded limit |
| `Journal.IndexedReturns` | history/src/journal.rs:382-420 | Looking up the offset and digest of any written record returns that record |
| `JournalFiles.CreateJournal` | history/src/journal.rs:136-164 | A journal starts with its header exactly when the configuration is valid and the budget holds it |
| `JournalFiles.Writer.Append` | history/src/journal.rs:165-222 | The file is always the header and the records of the entries; the result locates the new record; any failure poisons |
| `JournalFiles.Reader.NextRecord` | history/src/journal.rs:315-379 | The cursor reads exactly the specified record, and an end or failure is final |
| `Dnp3Link.ParseLink` | src/dnp3.rs:287-373 | Exactly the octets with good header, length and block checksums parse; the frame and its user data are those octets with their origins |
| `Dnp3Safety.EmitGood` | src/dnp3.rs:411-430 | A message goes out only with everything claimed about it |
| `Dnp3Safety.DropGood` | src/dnp3.rs:491-510 | A discontinuity leaves nothing of its address open |
| `Dnp3Safety.JoinGood` | src/dnp3.rs:887-962 | Placing a fragment keeps every claim about messages, and the message it is in ends with it |
| `Dnp3Transport.SegmentGood` | src/dnp3.rs:741-868 | Whatever a segment does, assemblies stay consecutive chains of one run and direction |
| `Dnp3Transport.AcceptGood` | src/dnp3.rs:652-962 | Accepting a good frame keeps every claim about fragments and messages |
| `Dnp3Effects.InterruptCloses` | src/dnp3.rs:491-510 | A discontinuity puts out every open message of its address unfinished, and none of another |
| `Dnp3Effects.SegmentCases` | src/dnp3.rs:741-868 | A repeat is noted and adds nothing; a gap, conflict or orphan drops everything its address has open under its own reason; FIR starts from its own octets, the next in line adds its octets, the last leaves nothing waiting |
| `Dnp3Effects.JoinCases` | src/dnp3.rs:887-962 | FIR ends the open message and begins one; the next sequence number with the same function extends it; anything else ends it unfinished and joins nothing |
| `Dnp3Effects.AcceptConfined` | src/dnp3.rs:652-962 | A frame changes nothing another address pair has open, and what it puts out is its own pair's |
| `Dnp3Isolation.AcceptInStep` | src/dnp3.rs:652-962 | Two states that look alike to an address pair accept its next frame alike, whatever else they hold, as long as the budgets last |
| `Dnp3Isolation.Isolated` | src/dnp3.rs:652-962 | Whatever frames a run accepts, each address pair ends as if its own frames had been alone |
| `Dnp3Conservation.AcceptOwned` | src/dnp3.rs:652-962 | Accepting a frame loses no fragment and uses none twice |
| `Dnp3Delivery.TrainDelivers` | src/dnp3.rs:741-962 | Frames that carry a fragment in sequence deliver exactly that fragment; with room in the other budgets this fails exactly when it continues a message whose objects would exceed theirs; a FIR-and-FIN fragment is a complete message at once |
| `Dnp3Delivery.ConvoyDelivers` | src/dnp3.rs:887-962 | The fragments of a message, added in order, come out as one complete message with all their objects |
| `Dnp3Messages.MessageDelivers` | src/dnp3.rs:741-962 | However a message is split into fragments and frames, accepting the frames puts out that complete message and changes nothing else |
| `Dnp3Messages.AllDelivered` | src/dnp3.rs:652-962 | Messages sent one after another come out one after another, with nothing open and nothing reported |
| `Dnp3Mixed.EchoAccepted` | src/dnp3.rs:741-790 | A repeated segment of the open fragment is reported and changes nothing its address pair can see |
| `Dnp3Mixed.TrafficDelivers` | src/dnp3.rs:652-962 | Frames of any number of address pairs in any interleaving, with segments repeated while their fragment is open: each pair's messages come out complete, in order and with their objects, each repeat is reported once and nothing else is |
| `Dnp3Decode.Flush` | src/dnp3.rs:631-651 | Resynchronization, bad frames and chunk ends close everything that is open |
| `Dnp3Decode.DecodeChunk` | src/dnp3.rs:531-986 | One chunk yields exactly its good frames in order, keeps every claim and ends with nothing open; if it is good frames only, they are accepted one after another and what they settle is the result |
| `Dnp3Decode.Decode` | src/dnp3.rs:512-987 | The frames are exactly the good frames of the chunks, in order; fragments are FIR-to-FIN chains in one unbroken run; messages are ordered chains with one address pair and direction, complete exactly with FIN; each FIR fragment is in exactly one message; and a chunk that is the frames of any messages, back to back, decodes to exactly those messages, and one that is the interleaved traffic of many address pairs to each pair's messages |
| `Dnp3Encode.EncodedChunk` | src/dnp3.rs:287-373 | Frames written back to back with their checksums are exactly the frames of the chunk, with their control, addresses and user data |
| `Clock.ResolutionRoundTrip` | src/time.rs:10-28 | The one-octet resolution is exact in both directions and exists up to exponent 127 |
| `Clock.UnixNanosExact` | src/time.rs:60-97 | Conversion succeeds exactly when the exponent is at most 127 and the rational time is a whole number of nanoseconds, and returns it |
| `Clock.LegacyRoundTrip` | src/time.rs:38-127 | A time that fits a classic capture comes back with the same nanoseconds |
| `CaptureParity.RequiredStable` | src/capture.rs:250-313 | Once met or refused, a record's need does not change with more input |
| `CaptureParity.RequiredGrows` | src/capture.rs:250-313 | Reading no further than asked never reads past the record |
| `CaptureParity.DecodeStable` | src/capture.rs:315-326 | With enough input for a record, the rest does not matter |
| `CaptureParity.CaptureIter.Next` | src/capture.rs:919-953 | The borrowed iterator yields the next record of the input, its end or its failure |
| `CaptureParity.CaptureReader.ReadOne` | src/capture.rs:990-1046 | However short or interrupted the reads, the streaming reader yields the same |
| `CaptureParity.IterateAll` | src/capture.rs:917-953 | The iterator's records and ending are those of the input |
| `CaptureParity.ReadAll` | src/capture.rs:980-1046 | For every schedule the reader's records and ending are the same ones |
| `CaptureParity.FramesCountFromOne` | src/capture.rs:315-749 | On a clean end the raw records concatenate to the input, and packets are numbered from one |
| `CaptureBlocks.InterfaceParses` | src/capture.rs:501-547 | A written interface block decodes to the same interface, in either byte order |
| `CaptureBlocks.PacketParses` | src/capture.rs:548-598 | A written packet block decodes to the same lengths, clock and interface |
| `CaptureRoundTrip.PcapngRoundTrip` | src/writer.rs:101-240 | A written PCAPNG capture decodes to exactly its section, interfaces and packets, and ends cleanly |
| `CaptureRoundTrip.PacketDataComesBack` | src/writer.rs:181-240 | The packet bytes of a decoded block are the bytes written |
| `CaptureRoundTrip.PcapNgWriter.DeclareInterface` | src/writer.rs:146-180 | An interface is written exactly when acceptable, and a refusal writes nothing |
| `CaptureRoundTrip.PcapNgWriter.WritePacket` | src/writer.rs:181-240 | A packet is written exactly when acceptable with its interface's clock, and a refusal writes nothing |
| `ClassicRoundTrip.ClassicComesBack` | src/capture.rs:329-411 | A written classic capture decodes to its header and packets |
| `ClassicRoundTrip.PcapWriter.WritePacket` | src/writer.rs:52-83 | A packet is written exactly when it fits, with exactly the given nanoseconds |
| `InternetChecksums.FoldMeans` | src/checksum.rs:16-20 | The accumulator stays within sixteen bits, congruent to the word sum modulo 65535 and zero only for a zero sum |
| `InternetChecksums.ChecksumZero` | src/checksum.rs:39-48 | The checksum is zero exactly when the word sum is a nonzero multiple of 65535 (sections 1 and 2 of RFC 1071) |
| `InternetChecksums.InternetChecksum.Update` | src/checksum.rs:22-35 | Feeding more bytes equals having had them from the start |
| `InternetChecksums.InternetChecksum.Finish` | src/checksum.rs:39-48 | The result is the one-shot checksum of everything seen |
| `Sha256Buffering.Sha256.Update` | src/sha256.rs:37-60 | Buffered blocks and waiting bytes are exactly those of everything seen |
| `Sha256Buffering.Sha256.Finalize` | src/sha256.rs:100-120 | The state is the compression fold over the padded message (section 5.1.1 of FIPS 180-4) |

## Left out

- Operating-system effects: real files, directory synchronization, links, publication and process identity.
- Write failures: writers and the journal are modelled on outputs that accept every write; budgets and poisoning after a failed check are modelled.
- Packet, transport and link header parsing of `src/wire.rs`: per-field bounds checks; only its checksum states and its promises of nonempty fragments and of segment payloads inside their datagram are used.
- UDP applications (their failure is an input of each packet), protocol detection, Modbus, correlation and confirmation pairing, reports and JSON projection.
- DNP3 function and object tables: labels and field layouts, large case tables of local claims.
- Query JSON encodings, and `History::open`'s hash comparison of sealed files.
- The external sort's and queries' cooperative cancellation callback.
- Cryptographic strength of SHA-256 and error detection of CRC-16; the SHA-256 compression function itself.
- Memory aliasing of tuple states: the history works on a copy of a state and replaces it on success, so `TupleStates` models states as values; key, generation and configuration codecs are likewise functions on values, with the buffer and cursor objects modelled for the primitives.
- Order of expiry notices within one frame: the model removes due fragment sets in any order; which sets and packets are reported is exact.
- Capture iterators: parity is stated for records and for failure or no failure, not for which of two simultaneous errors is reported, because the slice iterator checks the record budget first.
