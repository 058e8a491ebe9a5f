# CipherPost: a verified model of the capture and analysis pipeline

CipherPost rebuilds e-mail sessions from captured TCP packets, finds where TLS starts in them, parses
the handshake, and analyses, stores and reports the result. This project models the parts of it that
carry state or protocols and proves what they guarantee, over all inputs and over all runs.

| file | models |
|---|---|
| `HalfStreams.dfy` | one direction of a TCP connection: reassembly of out-of-order, repeated and overlapping segments |
| `Assembler.dfy` | demultiplexing of packets into bidirectional streams, and the session built from one |
| `LiveReassembly.dfy`, `LiveLimits.dfy`, `Oldest.dfy` | the long-running assembler: closing, caps, eviction and accounting, and what the limits do not limit |
| `TlsRecords.dfy` | TLS record framing, and the search for where records start |
| `Sessions.dfy` | the cut of a session into plaintext and TLS |
| `Handshake.dfy` | the handshake message parsers |
| `HelloBuilder.dfy` | the corpus builder, which is the printer for those parsers |
| `Ja4.dfy`, `Strings.dfy` | the JA4 client fingerprint |
| `Delivery.dfy`, `AnalysisWorker.dfy`, `DeliveryRetries.dfy`, `DeliveryLoops.dfy`, `DeliveryOwnership.dfy`, `SessionIds.dfy` | delivery of sessions to the analysis workers: consumer group, retries, dead letters, idempotent insert, publication |
| `DiskQueue.dfy` | the sensor's queue on disk and the loop that ships it |
| `Publisher.dfy` | the bounded publisher of the capture path |
| `AlertState.dfy`, `RateOutages.dfy`, `DedupOutages.dfy` | the alert rate budget and the deduplication map, and both while Redis comes and goes |
| `RawStore.dfy` | the rolling store of raw frames |
| `Flows.dfy` | aggregation of stored sessions by mail flow, and the regression verdict |
| `Bytes.dfy`, `Collections.dfy`, `Wrappers.dfy` | byte strings, big-endian integers, small notions about numbers and sequences, `Option` and `Result` |

The original's objects are classes whose methods are proved against a specification function on
values; what the original promises is then proved of those functions, over whole runs where it is a
promise about runs. `hide` statements in proofs only keep the verifier's queries small.

What a run needs from outside is a parameter: whether Redis, the broker or the database answers, the
free disk space, the clock, the random part of a delay, the hash function. Crashes and lost answers are
steps of their own.

## Findings

Some of what the code or its documentation promises does not hold. Each case is a lemma.

- With arbitrary overlap a buffered segment can be jumped over and its bytes never emitted
  (`HalfStreams.OverlapCanStrandBytes`; exactly when: `HalfStreams.FrontierIsMaximalIff`).
- A protocol marker matches in some probe if and only if it has no lower-case letter, because the probe
  is upper-cased (`Sessions.MarkerCanMatchIff`); so the Dovecot banner and the a001 tag decide nothing
  (`Sessions.DeadMarkersDecideNothing`).
- A STARTTLS session without a valid server record keeps the whole server stream in both parts
  (`Sessions.ServerIsPartitionedIff`).
- After a full handshake both ends have been seen sending SYN, so the ports and the first talker decide
  who the client is (exactly how: `Assembler.WhoIsTheClient`). Without a mail port the end that sends the
  banner is taken for the client (`Assembler.BannerSwapsRoles`, `Assembler.RolesSwapOnPort2525`).
- A ClientHello body of exactly 34 bytes raises `IndexError` instead of `TlsParseError`
  (`Handshake.IndexErrorIff`).
- `is_grease` accepts values that RFC 8701 does not reserve (`Handshake.GreaseTestAcceptsUnreserved`).
- A dead-letter write that fails loses the entry (`Delivery.FailedBurialLoses`).
- The finding of a stored session is lost for good (`Delivery.LostFindingStaysLost`) if and only if the
  worker that stored it dies before it publishes, or its publish call fails, which the worker swallows
  before it acks the entry, or the answer to the commit is lost (`Delivery.StepOrphansIff`, and over
  whole runs `Delivery.FindingIsLostIff`).
- A session without an identity key can be stored twice (`Delivery.KeylessEntryCanBeStoredTwice`), as one
  whose five-tuple is a bar and whose other fields are empty (`SessionIds.BarsAreStoredTwice`). Sessions
  that differ in where a bar stands share a key (`SessionIds.SeparatorsCollide`).
- An entry that does not decode is never acked (`Delivery.UndecodableIsStuck`).
- An entry is handled at most five times for its delivery and five more for each disruption of its
  accounts (`DeliveryRetries.RetriesAreBounded`); an expired counter, a failure not counted or not
  answered, a lost ack, a worker that dies between clearing the counter and the ack, and a reclaim of an
  entry in hand each alone suffice for any number of handlings (`DeliveryLoops.EachKindAloneIsUnbounded`).
- The disk queue passes items over when its bound drops lines between a read and its ack, after a crash
  inside compaction, and after a crash between a drop and the reset of the offset
  (`DiskQueue.OverflowInFlightSkips`, `DiskQueue.CrashInCompactionSkips`, `DiskQueue.CrashInDropSkips`;
  exactly when the last loses anything: `DiskQueue.CrashInDropLosesIff`).
- A full window of lines that do not decode at the cursor of the disk queue stops shipping for good, until
  the bound drops lines (`DiskQueue.StoppedForGoodIff`).
- A restart of the sensor forgets the drop count (`DiskQueue.RestartForgetsDrops`; exactly when the count
  is complete: `DiskQueue.CounterIsCompleteIff`).
- A publisher configured without room raises out of `publish` (`Publisher.PublishRaisesIff`).
- Two calls of one instance at the same time count once against the shared rate budget
  (`AlertState.EqualTimesOverrun`; exactly when the budget holds: `AlertState.SharedBudgetIff`), so that
  any number of them pass a budget of one (`RateOutages.EqualTimesAreAllAdmitted`). An instance that loses
  Redis and gets it back can admit twice the budget in a minute (`RateOutages.OutagesCanDouble`), and no
  more as long as the calls it admitted with an answer from Redis came at different times
  (`RateOutages.OutagesDoubleTheBudget`). It can give two fresh verdicts for one key in a window
  (`DedupOutages.TwoInAWindow`), and a third only when its memory dropped the key in between
  (`DedupOutages.AtMostTwoPerWindow`).
- A live stream that never carried data is never closed for idleness (`LiveLimits.IdleIff`), and bytes
  that wait behind a gap escape the byte cap (`LiveLimits.PendingBytesAreUncapped`).
- A ref into a purged segment that was opened again reads another frame (`RawStore.PurgedRefCanMislead`;
  exactly when a run is free of this: `RawStore.PurgedRefsMisleadIff`).
- The analysis names versions "TLS1.2" where the flow ranking expects "TLS 1.2", so the downgrade verdict
  is never given (`Flows.DowngradeIsNeverReported`).
- GREASE among the signature algorithms is not stripped from JA4 (`Ja4.GreaseInSigAlgsShows`), and a
  one-byte ALPN name outside the alphanumerics repeats its first hexadecimal digit (`Ja4.OneByteAlpn`).
- Where comments and code differ the model follows the code: the segment header is the 20 bytes of
  `<QdI`, not `<QdIII`; `find_tls_offset` requires one valid record at the offset, not that the whole
  tail parses.

## Model

| member | source | states |
|---|---|---|
| HalfStreams.HalfStream.Flush | backend/app/parsing/reassembly.py:159-166 | the loop emits exactly the chain of buffered segments keyed at the frontier, and terminates |
| HalfStreams.HalfStream.Store | backend/app/parsing/reassembly.py:132-157 | anchors on first data, trims what is already emitted, buffers the rest under its sequence number |
| HalfStreams.HalfStream.Feed | backend/app/parsing/reassembly.py:168-170 | a segment with SYN only anchors; data is stored and flushed |
| HalfStreams.EmittedBytesAreTheStream | backend/app/parsing/reassembly.py:131-166 | for any run of segments that agree with one true stream, with gaps, overlaps, repeats and reordering, the buffer is exactly that stream from the base to the frontier |
| HalfStreams.RunsOnlyExtend | backend/app/parsing/reassembly.py:131-166 | along every run the buffer only grows by appending; base and frontier never move back |
| HalfStreams.WindowIsCanonical | backend/app/parsing/reassembly.py:131-166 | on a fixed segmentation the state is a function of the anchor and the set of pieces received, and the frontier ends the longest gap-free run of them |
| HalfStreams.OrderIndependence | backend/app/parsing/reassembly.py:131-166 | two deliveries of the same pieces from the same anchor, in any orders with any repeats, end in the same state |
| HalfStreams.CompleteDelivery | backend/app/parsing/reassembly.py:131-166 | once every piece has arrived all bytes from the anchor are emitted and nothing is pending; the whole stream comes out if and only if a SYN came no later than the data or the first piece came first |
| HalfStreams.FrontierIsMaximalIff | backend/app/parsing/reassembly.py:158-166 | with arbitrary overlap, the exact condition on a call under which bytes already received stay behind the frontier |
| HalfStreams.OverlapCanStrandBytes | backend/app/parsing/reassembly.py:158-166 | a concrete overlapping delivery of all bytes that leaves two of them unemitted |
| Assembler.KeyJoinsBothDirections | backend/app/parsing/reassembly.py:178-182 | two packets share a key if and only if they belong to the same connection in either direction |
| Assembler.Stream.Feed | backend/app/parsing/reassembly.py:184-213 | routes a packet to the half of its sender and records SYN, FIN and RST as the code does |
| Assembler.StreamAssembler.Feed | backend/app/parsing/reassembly.py:184-213 | opens the stream of the packet's connection if there is none, and feeds it |
| Assembler.StreamAssembler.Emit | backend/app/parsing/reassembly.py:234-265 | the sessions of the complete streams, in the order the streams were opened |
| Assembler.StreamsDoNotInterfere | backend/app/parsing/reassembly.py:178-213 | for every interleaving of any number of connections each stream is what its own packets alone would have made |
| Assembler.HalvesAreDirections | backend/app/parsing/reassembly.py:184-213 | each half is the reassembly of exactly the segments its end sent |
| Assembler.BytesBelongToTheirSender | backend/app/parsing/reassembly.py:215-261 | whichever end sorts first, the client bytes of a stream are the reassembly of exactly what the resolved client sent in the whole capture, and conversely for the server |
| Assembler.SessionIsTheClientStream | backend/app/parsing/reassembly.py:234-261 | plaintext followed by TLS of an emitted session is a contiguous stretch of the client's true stream |
| Assembler.WhoIsTheClient | backend/app/parsing/reassembly.py:215-232 | an end is taken for the client if and only if it alone was seen sending SYN, or both or neither were and only the other end has a mail port, or the ports do not tell and it talks first, a tie going to the end that sorts first |
| Assembler.BannerSwapsRoles | backend/app/parsing/reassembly.py:215-232 | after a full handshake on other ports, with the banner first, the end that answered the connection is taken for the client |
| Assembler.RolesSwapOnPort2525 | backend/app/parsing/reassembly.py:215-232 | as on ports 40000 and 2525 |
| Sessions.FindStarttlsOffset | backend/app/parsing/tls_records.py:104-123 | the offset just behind the line end that follows the first upgrade command |
| Sessions.MarkerCanMatchIff | backend/app/parsing/reassembly.py:272-287 | a marker occurs in some upper-cased probe if and only if it has no lower-case letter |
| Sessions.DeadMarkersDecideNothing | backend/app/parsing/reassembly.py:272-287 | without the Dovecot and a001 markers detection finds the same |
| Sessions.FindTransition | backend/app/parsing/reassembly.py:290-338 | where TLS starts in the client stream, and whether a command announced it |
| Sessions.AssignTlsSegments | backend/app/parsing/reassembly.py:290-338 | the four parts of the session, branch by branch |
| Sessions.ClientIsPartitioned | backend/app/parsing/reassembly.py:290-338 | plaintext part + TLS part is the client stream, for every input, and TLS starts at the cut |
| Sessions.StarttlsMeans | backend/app/parsing/reassembly.py:290-338 | is_starttls holds if and only if the port is not an implicit-TLS port and a complete valid record starts right behind the CRLF of the first upgrade command; that point is the cut |
| Sessions.ServerIsPartitionedIff | backend/app/parsing/reassembly.py:290-338 | the server parts make up the server stream if and only if it is not a STARTTLS session whose server stream has no valid record in the scanned range |
| Sessions.HeaderIsAtTheStart | backend/app/parsing/reassembly.py:290-338 | the header that the "TLS anyway" branch searches for is found at the first byte |
| Sessions.UnannouncedTlsStartsAtZero | backend/app/parsing/reassembly.py:290-338 | so a cut that nothing announced is at 0, before a complete first record (`Sessions.FindTransition` proves the search itself) |
| TlsRecords.ParseTlsRecords | backend/app/parsing/tls_records.py:28-58 | the parsing loop: records, or the error of the first bad header |
| TlsRecords.LengthIsNeverAbsurd | backend/app/parsing/tls_records.py:40-50 | the error for over-long lengths is unreachable |
| TlsRecords.ParseWire | backend/app/parsing/tls_records.py:28-58 | encoded records followed by an incomplete one parse back to themselves |
| TlsRecords.ParseUndoesEncode | backend/app/parsing/generate_corpus.py:106-108 | parsing the concatenation of up to 4096 encoded records returns them |
| TlsRecords.EncodeUndoesParse | backend/app/parsing/tls_records.py:28-58 | on every accepted input the records re-encode to a prefix of it, with only an incomplete record left over below the limit |
| TlsRecords.ParseIsMonotone | backend/app/parsing/tls_records.py:28-58 | more data only adds records; an error in a prefix is the error of the whole |
| TlsRecords.FindTlsOffset | backend/app/parsing/tls_records.py:68-101 | the least position in the scan range at which a valid record starts, and none exactly when there is none |
| TlsRecords.ValidInSuffix | backend/app/parsing/tls_records.py:68-83 | a record is valid in a suffix exactly where it is valid in the whole |
| LiveReassembly.LiveReassembler.FeedPacket | backend/app/live/reassembly.py:78-90 | feeds the stream, counts the packet, and notes its raw ref |
| LiveReassembly.LiveReassembler.EmitOne | backend/app/live/reassembly.py:154-197 | removes a stream and its refs, and counts it under its cause when it yields a session |
| LiveReassembly.LiveReassembler.Sweep | backend/app/live/reassembly.py:97-126 | the closing pass, then eviction of the oldest above the cap |
| LiveReassembly.LiveReassembler.Drain | backend/app/live/reassembly.py:137-146 | closes every stream |
| LiveReassembly.ClosingKeepsConsistency | backend/app/live/reassembly.py:154-197 | closing removes exactly the closed streams from table and refs and leaves all others unchanged |
| LiveReassembly.EvictionTakesTheOldest | backend/app/live/reassembly.py:112-126 | eviction takes as many streams as exceed the cap, none younger than a survivor |
| LiveReassembly.SweepGuarantees | backend/app/live/reassembly.py:97-135 | after every sweep at most max_sessions streams remain, none complete, none whose last data is older than the timeout, none with more ordered bytes than the cap; survivors are unchanged and no younger than the evicted |
| LiveLimits.IdleIff | backend/app/live/reassembly.py:97-109 | a stream that is not complete is closed for idleness at some time if and only if it has carried data |
| LiveLimits.PendingBytesAreUncapped | backend/app/live/reassembly.py:110-113 | behind one missing byte a stream holds any number of bytes, and no sweep before the idle timeout closes it |
| LiveReassembly.StepKeepsAccounts | backend/app/live/reassembly.py:78-197 | every feed, sweep and drain keeps the accounts |
| LiveReassembly.EveryRunIsAccounted | backend/app/live/reassembly.py:78-197 | over every run: completed = fin + rst + idle + cap, each packet is in exactly one stream, each stream is emitted at most once as the session of exactly its packets, with exactly their refs in order |
| LiveReassembly.EverySessionIsReturned | backend/app/live/reassembly.py:97-146 | over every run the sweeps and drains return exactly the sessions of the closed streams, each once and in order |
| Handshake.GreaseTestIsWider | backend/app/parsing/handshake.py:45-48 | every value reserved by RFC 8701 is accepted; among the accepted the reserved are those with equal bytes |
| Handshake.GreaseTestAcceptsUnreserved | backend/app/parsing/handshake.py:45-48 | 0x0A1A is accepted and not reserved |
| Handshake.HandshakeBody | backend/app/parsing/handshake.py:166-184 | collects the first non-empty body of each message type from the handshake records |
| Handshake.ParseExtensions | backend/app/parsing/handshake.py:187-200 | the complete extensions in order, at most 32 |
| Handshake.ParseClientHello | backend/app/parsing/handshake.py:203-312 | the parsing code returns what its specification says, error by error |
| Handshake.IndexErrorIff | backend/app/parsing/handshake.py:203-225 | the unguarded read raises if and only if the body is 34 bytes long |
| Handshake.ParseServerHello | backend/app/parsing/handshake.py:315-377 | version, cipher, downgrade sentinel, HRR and extensions of a ServerHello |
| Handshake.ParseCertificateMessage | backend/app/parsing/handshake.py:380-429 | the DER list, or the error |
| HelloBuilder.ExtensionBlockUndoes | backend/app/parsing/handshake.py:187-200 | parsing the printed form of up to 32 extensions gives them back |
| HelloBuilder.U16sUndoes | backend/app/parsing/handshake.py:203-312 | reading pairs of bytes undoes writing 16-bit lists |
| HelloBuilder.AlpnListed | backend/app/parsing/generate_corpus.py:111-164 | reading the names of a printed ALPN extension gives them back |
| HelloBuilder.FlightIsRecovered | backend/app/parsing/handshake.py:166-184 | records of whole messages parse back, and collecting keeps the first non-empty body of each type |
| HelloBuilder.ClientHelloRoundTrip | backend/app/parsing/generate_corpus.py:111-164 | record parser, message collection and ClientHello parser recover version, suites, SNI, groups and ALPN whenever the builder does not raise |
| HelloBuilder.ServerHelloRoundTrip | backend/app/parsing/generate_corpus.py:167-184 | the same pipeline recovers version and cipher of a built ServerHello |
| HelloBuilder.CertificateRoundTrip | backend/app/parsing/handshake.py:380-429 | the parser undoes the RFC 5246 and RFC 8446 section 4.4.2 encodings, whatever extensions TLS 1.3 entries carry, for the first 32 certificates |
| HelloBuilder.BuiltCertificateRoundTrip | backend/app/parsing/generate_corpus.py:187-212 | the pipeline recovers the DER list from the builder's message for every version, although its TLS 1.3 layout is not the RFC's |
| Strings.HexOrderIsNumeric | backend/app/parsing/ja4.py:67-68 | the string order of four-digit hexadecimal forms is the numeric order, and the form is injective |
| Ja4.OrderedIsUnique | backend/app/parsing/ja4.py:136-154 | a multiset of strings has one sorted sequence |
| Ja4.SortingHexIsSortingNumbers | backend/app/parsing/ja4.py:136-154 | sorting the hexadecimal forms is sorting the values |
| Ja4.FingerprintIsCanonical | backend/app/parsing/ja4.py:136-154 | for any hash the fingerprint depends only on the suites and extensions without GREASE up to order, the set of offered versions without GREASE, and the remaining fields |
| Ja4.OrderIsInvisible | backend/app/parsing/ja4.py:136-154 | permuting suites, extensions or versions leaves it unchanged |
| Ja4.GreaseIsInvisible | backend/app/parsing/ja4.py:67-83 | inserting any RFC 8701 value anywhere into suites, extensions or versions leaves it unchanged |
| Ja4.CipherInputSeparates | backend/app/parsing/ja4.py:71-74 | two offers hash the same cipher input if and only if their suites without GREASE are equal up to order |
| Ja4.ExtensionInputSeparates | backend/app/parsing/ja4.py:146-153 | two offers hash the same extension input if and only if their extensions without GREASE, SNI and ALPN are equal up to order and their signature algorithms are equal in order |
| Ja4.GreaseInSigAlgsShows | backend/app/parsing/ja4.py:146-153 | a GREASE value among the signature algorithms always changes the hashed input |
| Ja4.OneByteAlpn | backend/app/parsing/ja4.py:86-107 | what a one-byte protocol name yields, and when that is its hexadecimal form |
| Ja4.LayoutIsFixed | backend/app/parsing/ja4.py:136-154 | transport, version, SNI, both counts up to 99, ALPN and the two digests stand each at its place, for every offer |
| Ja4.ExampleLayout | backend/app/parsing/ja4.py:136-154 | the published example |
| Delivery.StreamConsumer.PollRaw | backend/app/live/streams.py:118-136 | the entries handed out, no more than exist, become pending even when the answer is lost; those that do not decode are not handed on |
| Delivery.StreamConsumer.Reclaim | backend/app/live/streams.py:156-177 | hands out the reclaimed entries that decode and changes nothing in the group |
| Delivery.StreamConsumer.NoteAttempt | backend/app/live/streams.py:32-43 | counts the attempt; returns 1 when the call fails |
| Delivery.StreamConsumer.ClearAttempts | backend/app/live/streams.py:46-50 | forgets the count, or leaves it when the call fails |
| Delivery.StreamConsumer.DeadLetter | backend/app/live/streams.py:179-192 | writes the entry, and acks it whether or not the write succeeded |
| Delivery.StepGrows | backend/app/live/analyze.py:149-170 | no step changes or removes a row, a publication or a dead letter |
| Delivery.StepIsSafe | backend/app/live/analyze.py:297-403 | every step of every worker keeps the invariant behind the next row |
| Delivery.DeliveryIsAtLeastOnce | backend/app/live/analyze.py:42-60 | over every interleaving of any number of workers with failures, crashes, lost answers and redeliveries: an entry acked is stored or dead-lettered or its dead-letter write failed; a keyed entry has at most one row; a finding is published at most once and only for a stored session |
| Delivery.FailedBurialLoses | backend/app/live/streams.py:187-192 | a burial whose write fails ends with the entry acked, neither stored nor dead-lettered unless it was before |
| Delivery.StepOrphansIff | backend/app/live/analyze.py:288-357 | in every safe state a step makes the finding of a session one that nobody will publish if and only if it is the crash of its inserter, the inserter's publish call failing, or the commit of its new row with the answer lost |
| Delivery.FindingIsLostIff | backend/app/live/analyze.py:288-357 | over every run a stored session ends up neither published nor about to be if and only if one of those steps happened to it |
| Delivery.LostFindingStaysLost | backend/app/live/analyze.py:330-357 | such a finding is not published in any continuation |
| Delivery.KeylessEntryCanBeStoredTwice | backend/app/live/analyze.py:42-60 | the uuid fallback stores one entry twice after a crash |
| Delivery.UndecodableIsStuck | backend/app/live/streams.py:118-136 | over every run an entry that does not decode, or whose inner JSON does not parse, stays pending |
| SessionIds.KeylessIff | backend/app/live/analyze.py:42-60 | the random id is used if and only if every identity field is empty or made of separators |
| SessionIds.KeysIdentify | backend/app/live/analyze.py:42-60 | with no separator inside a field, equal keys mean equal identity fields |
| SessionIds.SeparatorsCollide | backend/app/live/analyze.py:42-60 | a separator at the end of the client address or at the start of the server address makes two different sessions share a key, whatever the seven fields are |
| SessionIds.BarsAreStoredTwice | backend/app/live/analyze.py:42-60 | the seven fields of a payload with all that decoding asks for, a five-tuple of one bar, empty endpoints and no times, have no key, and that payload is stored twice after a crash |
| AnalysisWorker.CourseIsARun | backend/app/live/analyze.py:369-403 | the steps of one handling are a run of the system, so its theorems apply to the code |
| AnalysisWorker.Worker.Process | backend/app/live/analyze.py:297-367 | id, duplicate check, insert and publication follow the worker's steps |
| AnalysisWorker.Worker.HandleEntry | backend/app/live/analyze.py:369-403 | the whole handling leaves the shared state where the worker's steps leave it; inner JSON that does not parse raises and changes nothing |
| DeliveryOwnership.OwnedStep | backend/app/live/streams.py:156-177 | as long as only entries that nobody holds are reclaimed, no entry is held twice and every held entry is pending, whatever else fails |
| DeliveryOwnership.AttemptsAreCapped | backend/app/live/analyze.py:386-392 | over every run with one owner at a time, counted failures answered, and no burial cut short, the counter of a pending entry is at most 5, is 5 only while the entry is being moved to the dead-letter stream, and every dead letter records exactly 5 attempts |
| DeliveryRetries.StepSpends | backend/app/live/analyze.py:384-403 | whatever fails, the end of a handling lowers what its entry can still cost by one, unless the step disrupts the entry; only its delivery and disruptions raise that, each by at most 5 |
| DeliveryRetries.RetriesAreBounded | backend/app/live/analyze.py:384-403 | over every run, with no assumption on what fails or who reclaims, the handlings of an entry that have ended plus those that may still end are at most 5 for its delivery and 5 for each disruption |
| DeliveryRetries.AttemptsAreFailures | backend/app/live/streams.py:32-50 | over every run that does not miscount an entry, its counter is the number of its failed handlings while it is pending and not just being cleared |
| DeliveryLoops.EachKindAloneIsUnbounded | backend/app/live/streams.py:32-50 | for each of the seven kinds of disruption there are runs with one delivery, disrupted by that kind only, in which its handling ends any number of times |
| DeliveryLoops.LostBurialsPassTheCap | backend/app/live/streams.py:179-197 | when the acks of burials are lost the counter passes 5 and goes up with every handling |
| DiskQueue.DiskQueue.Append | backend/app/agent/queue.py:45-73 | appends a line; above the bound the oldest tenth goes, counted, and the offset is reset |
| DiskQueue.DiskQueue.ReadBatch | backend/app/agent/queue.py:75-90 | the decodable items of the window at the offset |
| DiskQueue.DiskQueue.Ack | backend/app/agent/queue.py:92-104 | moves the offset; past 5000 the file is compacted |
| DiskQueue.ShipLoop | backend/app/agent/agent.py:126-141 | the loop does one turn per outcome and counts what it shipped |
| DiskQueue.LoopShipsAPrefix | backend/app/agent/agent.py:126-141 | on well-formed lines, whatever sends fail, what is shipped followed by the backlog is the original backlog |
| DiskQueue.NothingIsSkipped | backend/app/agent/queue.py:45-104 | over every run with outages, restarts, crashes before a drop or before compaction, crashes inside a drop at offset zero, and overflow at rest, each item is acked, dropped by the bound, or still ahead of the cursor; the counter is the drops since the last restart |
| DiskQueue.CounterIsCompleteIff | backend/app/agent/queue.py:18-27 | the counter tells all drops if and only if none happened before the last restart |
| DiskQueue.RestartForgetsDrops | backend/app/agent/queue.py:18-27 | a run in which an item is dropped, never shipped, and the counter reads zero |
| DiskQueue.ShippedIsAPrefix | backend/app/agent/queue.py:75-104 | as long as nothing was dropped in the whole run, restarts included, the acked batches concatenate to a prefix of the appended items; compaction is invisible |
| DiskQueue.BatchesStartAtTheCursor | backend/app/agent/queue.py:75-90 | every batch starts with the oldest item neither acked nor dropped |
| DiskQueue.OverflowAtRest | backend/app/agent/queue.py:61-73 | an overflow at rest loses only the counted drops and delivers acked items again |
| DiskQueue.OverflowInFlightSkips | backend/app/agent/queue.py:61-104 | an overflow between read and ack passes over exactly the items behind batch and drop, save those acked before |
| DiskQueue.CrashInDropSkips | backend/app/agent/queue.py:70-72 | a crash between the rewrite and the offset reset of a drop passes over exactly the items behind drop and cursor, up to as many as the offset, save those acked before |
| DiskQueue.CrashInDropLosesIff | backend/app/agent/queue.py:70-72 | at the first drop of a run such a crash loses something if and only if the offset is not zero |
| DiskQueue.CrashInCompactionSkips | backend/app/agent/queue.py:98-104 | a crash between rewrite and offset reset passes over exactly the items that follow the rewritten front, up to as many as the stale offset, save those acked before; nothing is read until the file is longer than that offset |
| DiskQueue.AckCoversTheWindowIff | backend/app/agent/agent.py:126-141 | the ack covers what was read if and only if every line of the window decodes |
| DiskQueue.StuckIff | backend/app/agent/agent.py:126-141 | a read changes nothing if and only if no line of the window decodes |
| DiskQueue.StoppedForGoodIff | backend/app/agent/agent.py:126-141 | in a file with room for the appends, no continuation of reads, sends, acks, restarts and appends without a drop ships anything if and only if the loop is idle before a full window of 100 lines that do not decode |
| Publisher.ResilientPublisher.Publish | backend/app/live/streams.py:262-273 | sends, or buffers dropping the oldest, or raises |
| Publisher.ResilientPublisher.Flush | backend/app/live/streams.py:275-298 | payloads leave from the front, each retried with capped delays, until one fails all its attempts |
| Publisher.FlushIsBounded | backend/app/live/streams.py:275-298 | attempts and total sleep of a flush are bounded by the configuration and what it sends |
| Publisher.EveryRunConserves | backend/app/live/streams.py:262-298 | over every run offered = sent directly + flushed + dropped + buffered, the depth never exceeds the bound, flushed payloads leave in order, and the buffer is the newest suffix of what is unflushed |
| Publisher.PublishRaisesIff | backend/app/live/streams.py:262-273 | publish raises if and only if the broker is down and the bound leaves no room |
| AlertState.RedisAlertState.CheckRate | backend/app/live/alert_state.py:90-112 | both paths: the shared sorted set, and the list kept in memory; a call whose answer is lost counts in the shared set and is decided in memory |
| AlertState.RedisAlertState.CheckAndSetDedup | backend/app/live/alert_state.py:68-87 | both paths: the shared key with expiry, and the map with eviction; a call whose answer is lost takes the shared key and is decided in memory |
| AlertState.MemoryKeepsTheBudget | backend/app/live/alert_state.py:107-112 | the memory path admits at most rate alerts in every window of 60 seconds |
| AlertState.MemoryAdmitsIff | backend/app/live/alert_state.py:107-112 | the memory path admits a call if and only if fewer than rate were admitted in the minute before |
| AlertState.ZHoldsTheLastMinute | backend/app/live/alert_state.py:95-104 | the sorted set holds exactly the calls of the last minute, rejected ones included |
| AlertState.SharedAdmitsIff | backend/app/live/alert_state.py:95-104 | the shared path admits a call if and only if the last minute holds at most rate calls, this one included |
| AlertState.SharedKeepsTheBudget | backend/app/live/alert_state.py:95-104 | when the shared path admits a call, the calls of the minute up to it, by all instances, are at most rate, if those calls are told apart by time and instance |
| AlertState.SharedBudgetIff | backend/app/live/alert_state.py:95-104 | admission bounds the calls of the last minute, for every budget, if and only if those calls are pairwise told apart |
| AlertState.SharedIsStricter | backend/app/live/alert_state.py:90-112 | every alert the shared path admits the memory path admits on the same calls |
| AlertState.SharedIsStrictlyStricter | backend/app/live/alert_state.py:90-112 | the converse fails, on a concrete sequence |
| AlertState.EqualTimesOverrun | backend/app/live/alert_state.py:95-104 | two calls of one instance at one time pass a budget of one |
| RateOutages.OutagesDoubleTheBudget | backend/app/live/alert_state.py:90-112 | whatever calls Redis answers, of the calls one instance admits within a minute at most rate were admitted by its memory and at most rate different ones by Redis; so at most twice the budget if those that Redis answered came at different times |
| RateOutages.OutagesCanDouble | backend/app/live/alert_state.py:90-112 | that bound is reached |
| RateOutages.EqualTimesAreAllAdmitted | backend/app/live/alert_state.py:95-104 | without different times there is none: any number of answered calls at one time is admitted with a budget of one |
| AlertState.TrimDropsTheOldest | backend/app/live/alert_state.py:82-87 | eviction leaves at most 5000 keys; an evicted key leaves 4001 keys at least as new |
| AlertState.FreshVerdictsAreSpaced | backend/app/live/alert_state.py:78-87 | over every run two fresh verdicts for one key are a window apart unless 4001 other keys had fresh verdicts no older than the first |
| AlertState.OnlyDuplicatesAreTurnedDown | backend/app/live/alert_state.py:78-81 | a call is turned down only if its key had a fresh verdict less than a window ago, or the clock has not passed one window |
| DedupOutages.AtMostTwoPerWindow | backend/app/live/alert_state.py:68-87 | whatever calls Redis answers, of any three fresh verdicts one instance gives for a key within a window two came from its memory, which in between had fresh verdicts for 4001 other keys |
| DedupOutages.TwoInAWindow | backend/app/live/alert_state.py:68-87 | two fresh verdicts within a window happen when Redis fails after the first |
| RawStore.RollingRawStore.OpenSegment | backend/app/live/retention.py:93-109 | opens the segment of the capture time for appending |
| RawStore.RollingRawStore.ShouldDrop | backend/app/live/retention.py:111-136 | the cached disk guard |
| RawStore.RollingRawStore.Write | backend/app/live/retention.py:138-158 | appends header, magic and frame and returns the ref, or drops, or raises after opening |
| RawStore.RollingRawStore.ReadFrames | backend/app/live/retention.py:160-174 | the slices at the refs; missing segments are skipped |
| RawStore.RollingRawStore.Purge | backend/app/live/retention.py:179-194 | removes exactly the expired segments that are not open |
| RawStore.RunsAreFaithful | backend/app/live/retention.py:138-194 | over every run a segment file is the concatenation of its surviving frames, each ref starting where the frames before it end |
| RawStore.RefsReadBack | backend/app/live/retention.py:138-174 | until its segment is purged a ref reads back exactly its header, magic and frame |
| RawStore.RefsAreDisjoint | backend/app/live/retention.py:138-158 | surviving refs of a segment follow each other without overlap |
| RawStore.PurgeSparesTheWindow | backend/app/live/retention.py:179-194 | whenever a step of a run takes a frame away, it is a purge and the frame has ts < now - retention of that purge |
| RawStore.PurgedRefCanMislead | backend/app/live/retention.py:160-174 | a run in which a ref into a segment that was purged and opened again reads another frame |
| RawStore.ReadsNothingIff | backend/app/live/retention.py:160-174 | a ref reads nothing if and only if its segment has no file |
| RawStore.PurgedRefsMisleadIff | backend/app/live/retention.py:138-194 | refs of purged frames read nothing throughout a run if and only if no write of the run goes into a segment purged before |
| RawStore.EveryCallIsAccounted | backend/app/live/retention.py:138-158 | frames + guard drops + raised = write calls; the byte counter is the size of all frames stored |
| RawStore.GuardFollowsTheReading | backend/app/live/retention.py:111-136 | a frame is dropped if and only if the last successful reading was below the floor; a reading is taken at the first call, at every call while dropping, and at least at every 128th |
| RawStore.SegmentsAreSelfDescribing | backend/app/live/retention.py:1-11 | the bytes of a segment determine its frames |
| Flows.MailFlow.Record | backend/app/live/flows.py:70-103 | the update of a flow row, and the fingerprints reported as new |
| Flows.UpdateFlow | backend/app/live/flows.py:40-108 | creates the row or takes the verdict from it first, then updates it; new fingerprints are reported for flows with three sessions before |
| Flows.UpdateDescribes | backend/app/live/flows.py:70-103 | the update keeps the row equal to the history: totals, versions, ciphers, fingerprints, best version of maximum rank, first and last time |
| Flows.DetectIsVerdict | backend/app/live/flows.py:149-169 | the verdict taken from the row is the one recomputed from the full history |
| Flows.FlowsMatchHistory | backend/app/live/analyze.py:168-236 | over every run of deliveries, redeliveries and rollbacks each row describes the stored sessions of its flow, each id is stored once, and each stored verdict is the recomputed one |
| Flows.TotalsBalance | backend/app/live/flows.py:70-76 | total = encrypted + plaintext = number of stored sessions of the flow |
| Flows.AnalysisNamesHaveNoRank | backend/app/parsing/handshake.py:480-482 | no version name that the analysis produces has a rank in the flow table |
| Flows.DowngradeIsNeverReported | backend/app/live/flows.py:20-24 | so no run of the pipeline yields the downgrade verdict |

## Left out

- LiveReassembly.EveryRunIsAccounted: the table of streams holds stream values; that the original's table holds objects, which two names could share, is not modelled. `Assembler.Stream` is the object with its update in place.
- Assembler.StreamAssembler.Feed: addresses are strings and packets arrive decoded; IPv6 addresses as raw bytes and pcap decoding are not part of this model.
- HalfStreams.EmittedBytesAreTheStream: sequence numbers are unbounded integers, as in the code; wrap-around at 2^32, which the code does not handle, is outside it. Data in a SYN segment is stored from the segment's own sequence number, as in the code, and so loses its first byte.
- LiveReassembly.LiveReassembler.FeedPacket: the inherited assembler is a component here; the timer thread of `tick` is not modelled.
- Delivery.DeliveryIsAtLeastOnce: the digest of the identity key is taken to be injective. Trimming of the streams by `maxlen`, which deletes entries and dead letters unread, is not modelled; neither are the synthetic job row, certificate tracking and scoring inside the transaction.
- Delivery.StreamConsumer.PollRaw: the consumer named in the pending list and the idle time are not modelled; any pending entry may be reclaimed at any time.
- DeliveryOwnership.AttemptsAreCapped: assumes one owner at a time, answers to counted failures, and no lost ack or crash inside a burial; without the ack `DeliveryLoops.LostBurialsPassTheCap` is a counterexample. That the group itself keeps to one owner depends on idle times, which are not modelled.
- RateOutages.OutagesDoubleTheBudget: the times of all calls ascend, which is one clock for all instances.
- DedupOutages.AtMostTwoPerWindow: likewise one clock.
- Flows.FlowsMatchHistory: one worker; two workers that update one row at the same time, and an exception swallowed inside update_flow, are not modelled. The flow id, a digest of five fields, is taken as the identity of the flow.
- DiskQueue.NothingIsSkipped: excludes an overflow while a batch is in flight, a crash inside compaction, and a crash inside a drop at an offset other than zero, for which the other lemmas say what is passed over. Torn writes and unreadable files are not modelled.
- AlertState.RedisAlertState.CheckRate: the expiry of the whole sorted set after 70 idle seconds, which removes only members older than the window, is not modelled; the member's text is taken as the pair of time and instance.
- RawStore.RollingRawStore.Write: capture times before 1970 and writes that fail half-way are not modelled; the eight header bytes of the time are a parameter. The purge thread runs between writes, one directory pass at a time.
- Handshake.ParseClientHello: names are bytes; decoding them as text is not modelled. A message split across records is not reassembled, as in the code.
- Handshake.ParseCertificateMessage: the conversion of DER to PEM, X.509 parsing and chain validation are foreign calls and left out.
- Ja4.FingerprintIsCanonical: JA3, JA3S and JA4S are not modelled; they join the fields of a hello in the order seen, with no sorting, so that nothing but the order-sensitive string could be stated.
- Alert grouping, which holds findings with the same rule and server for ten seconds and emits one with a count; the caches with a time to live; the login and MFA failure counters; the daily digests; ticketing, which posts a finding to an issue tracker; health reports; the rules engine, which checks one predicate per rule; the mapping of rules to compliance controls; and the HTTP interface.
- Machine-learning models, drift statistics, encryption, hashing, OIDC, JWT and DNSSEC: library code behind parameters or not part of this model.
