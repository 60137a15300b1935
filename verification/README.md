# LabStreamGate: verified models

LabStreamGate forwards TCP connections over WebSocket. Its gateway admits, limits, records and audits every
connection; its desktop application manages a pool of local tunnels for web pages and shows its own log. This
project models those parts in Dafny and proves what they keep over every run. Each `.dfy` file is one module:

| module | what it models |
|---|---|
| `Ledger` | any number of concurrent `observe` calls on one capture budget, the bounded queue, the writer and `finish`, as interleaved atomic steps |
| `Contention` | when concurrent calls may raise the truncation flag, and that every call can go on |
| `Observer` | the capture observer and the traffic counters as objects, and their agreement with `Ledger` and with plain truncation |
| `Packet`, `Pcap` | the Ethernet/IPv4/UDP frame with its Internet checksum (RFC 791 section 3.1, RFC 1071 section 1), the pcap file, and independent readers for both |
| `Connection` | how one connection is served, up to its audit record |
| `Proxy` | the message codec, the forwarding loop, and two proxies in a row in both directions |
| `EndToEnd` | a captured connection: both proxies and the capture ledger running together |
| `Admission` | per-tunnel counters and the global slots under every interleaving of requests |
| `Registry` | the lazily cleaned, persisted tunnel registry against a map that is never cleaned, across crashes |
| `Retention` | the two clean-up passes over capture files, with deletions that may fail |
| `LogText`, `Highlight` | the level scanner, the log formatter and its parser, the preview strip, the highlighter |
| `Minimap` | the scrollbar preview geometry over exact real numbers with half-to-even rounding |
| `Pool` | the desktop pool shared by all origins, each page's copy of its part, and the scopes |
| `Histories` | the capped log buffer with the window's copy of it, and the rotated audit file |
| `Bytes`, `Text` | fields, folds and string search shared by the others |

Concurrency is modelled as a sequence of atomic steps chosen freely; a step that is not enabled changes nothing,
so every theorem about `Exec(steps)` holds for every run. Values the environment decides (spurious
compare-and-swap failures, free ports, failing renames, deletions and saves, crash points, lost answers) are
parameters. Methods carry the program's loops and updates and are proved equal to a specification function; the
theorems are about those functions and about the step systems.

## Where a property needs a condition

- Minimap claims P1 and P2 fail when the eight-pixel minimum of the thumb binds. `ThumbIsShareIff` and
  `FitAlignedIff` give the exact condition, `FitMisalignedExample` an input.
- The minimap design says one row per pixel (scale 1) in the windowed regime. The code shows fewer rows than pixels
  near the bottom exactly when fewer than eight rows are visible (`WindowFullEverywhereIff`).
- Records longer than the snaplen of 65535 that the capture file announces are written exactly when some message has
  more than 65493 bytes (`SnaplenRespectedIff`); the longest has 65549 (`FullFrameExceedsSnaplen`).
- The truncation flag can be raised without any byte lost: exactly when everything fits and some empty message came
  after an exactly full budget or met a full queue (`FlagWithoutLossIff`; two inputs in `FlagWithoutLoss`).
- A launch or close whose save fails answers with an error but stands in memory (`FailedSaveStaysInMemory`). The next
  restart undoes it exactly when no save, for whatever request, has succeeded since and the state file said something
  else (`RestartAfterFailedSave`; both outcomes in `FailedLaunchServesUntilCrash`).
- A crash restores the registry of just before the unfinished request exactly when the state file agreed with the
  memory (`CrashRestoresBeforeOrAfter`), which it does unless a failed save is outstanding (`UnsavedIff`).
- A target or a message with `": "` in it changes what the highlighter takes for the target (`SpansRoundTripIff`).
- The close handler releases its lock between its check and the removal. The removal spares every other page exactly
  when the check would still pass, or nothing is at the address any more (`RemovalSafeIff`); so it always does unless
  the owner, the removal of the caller's scope or another close has taken the caller's instance away meanwhile
  (`DelayedCloseSafe`). `DelayedCloseHitsAnother` gives a run.
- An answer that gets lost leaves a page's copy wrong until its next sync exactly when the request was sent and not
  turned down (`LostAnswerStaleIff`, `LostDeleteStaleIff`).
- A quit drops the log events gathered since the channel was last empty, so nothing exactly when there are none
  (`QuitDropsBatch`).

## Model

| member | source | states |
|---|---|---|
| Ledger.RunsKeepInv | crates/wsrx/src/cli/capture.rs:32-64 | with any number of clients and any interleaving of loads, exchanges, rollbacks, flags and writer steps, the conservation, counting, history and queue invariants hold after every step |
| Ledger.BudgetIsConserved | crates/wsrx/src/cli/capture.rs:33-62 | at every moment the reserved total is the bytes enqueued plus outstanding reservations, within the limit, and every pending rollback has enough to give back |
| Ledger.QuietLedger | crates/wsrx/src/cli/capture.rs:34-63 | with no call in progress the budget is the enqueued bytes and at most the traffic; if the flag is down, every client's messages were all enqueued whole and in order |
| Contention.FlagUpIff | crates/wsrx/src/cli/capture.rs:33-63 | over every interleaving the flag is up if and only if some call found the budget used up, some message was cut, or some packet was refused; contention alone never raises it |
| Contention.RaisersExceedBudget | crates/wsrx/src/cli/capture.rs:33-52 | a call that finds the budget used up has the traffic beyond the budget by its own message, stale copy or not, and a cut means the traffic exceeds it |
| Contention.CompleteWhenItFits | crates/wsrx/src/cli/capture.rs:32-64 | over every interleaving in which no packet met a full queue, a capture that fits the budget is never flagged, and when quiet holds every message whole and in order |
| Contention.FlagMeansOverflow | crates/wsrx/src/cli/capture.rs:32-64 | with messages that carry bytes and a queue never full, a finished capture is flagged if and only if the traffic exceeds the budget |
| Contention.FewPacketsNeverFull | crates/wsrx/src/cli/capture.rs:85 | no packet meets a full queue before 1024 have gone in |
| Contention.RetryReserves | crates/wsrx/src/cli/capture.rs:40-48 | an exchange that fails because the budget changed takes the new figure and reserves the smaller of rest and message at the next undisturbed try, with no flag and no loss |
| Contention.NobodyWaits | crates/wsrx/src/cli/capture.rs:32-64 | calls never wait for each other: where none can move, none is in progress |
| Ledger.WriterKeepsNumbers | crates/wsrx/src/cli/capture.rs:98-110 | from a quiet ledger, any writer steps in any order of marker and packets change nothing but how far the writer is |
| Ledger.FinishCloses | crates/wsrx/src/cli/capture.rs:98-153 | every schedule of the writer takes at most two steps more than there are packets, and where none is left the marker was handled behind all of them, with every audited number unchanged |
| Ledger.ClosedCaptureFile | crates/wsrx/src/cli/capture.rs:127-153 | after any run in which the writer closed, the file parses, its UDP payload is as long as the reported figure, and an untruncated capture holds both byte streams |
| Observer.CaptureObserver.Observe | crates/wsrx/src/cli/capture.rs:32-64 | the reservation loop, for any number of spurious failures, has the effect of one bounded reservation, rolled back when the queue is full |
| Observer.CaptureObserver.Take | crates/wsrx/src/cli/capture.rs:127-129 | the writer takes the oldest packet and the budget stays as it is |
| Observer.ConnectionObserver.Observe | crates/wsrx/src/cli/serve.rs:184-200 | the counter of the message's direction grows by its length, the other one stays, and the capture sees the message |
| Observer.SoloReserveOutcome | crates/wsrx/src/cli/capture.rs:33-49 | begin and one undisturbed exchange reserve the smaller of the rest of the budget and the message, or raise the flag |
| Observer.SoloSendOutcome | crates/wsrx/src/cli/capture.rs:50-63 | the second half of a call enqueues exactly the reserved prefix, or gives back exactly the reservation and raises the flag |
| Observer.SoloCallIsObserve | crates/wsrx/src/cli/capture.rs:32-64 | a call of the step system with nothing in between has exactly the effect of the sequential call |
| Observer.ObserverTruncates | crates/wsrx/src/cli/capture.rs:33-58 | sequential calls with room in the queue enqueue exactly the first max bytes of the whole traffic |
| Observer.FlagIff | crates/wsrx/src/cli/capture.rs:35-63 | for any answers of the queue, the flag is up if and only if some call came when the budget was used up, was cut, or met a full queue |
| Observer.NothingLostIff | crates/wsrx/src/cli/capture.rs:35-63 | nothing is lost if and only if the whole traffic fits in the budget and every message with bytes found room |
| Observer.FlagWithoutLossIff | crates/wsrx/src/cli/capture.rs:35-63 | the flag is up with nothing lost if and only if everything fits and some empty message came after an exactly full budget or met a full queue |
| Observer.FlagWithoutLoss | crates/wsrx/src/cli/capture.rs:35-63 | one input of each kind: an empty message after a full budget, and an empty message at a full queue |
| Packet.Ipv4Checksum | crates/wsrx/src/cli/capture.rs:246-255 | the summing and folding loops end and give the complemented one's-complement sum, without overflowing 32 bits |
| Packet.FoldsToOnesIff | crates/wsrx/src/cli/capture.rs:251-254 | a sum folds to 0xFFFF if and only if it is a positive multiple of 65535 |
| Packet.ChecksumCompletesHeader | crates/wsrx/src/cli/capture.rs:234-235 | writing the checksum over a zero word makes any header fold to 0xFFFF, which is what a receiver verifies |
| Packet.AcceptedAfterCorruptionIff | crates/wsrx/src/cli/capture.rs:246-255 | a changed word is noticed by a receiver except when one form of zero replaces the other |
| Packet.BuildUdpPacket | crates/wsrx/src/cli/capture.rs:220-243 | filling the zeroed buffer field by field yields the specified frame, checksum included, for every payload |
| Packet.BuiltHeaderAccepted | crates/wsrx/src/cli/capture.rs:226-235 | the finished IPv4 header of every packet passes a receiver's verification |
| Packet.FrameRoundTrip | crates/wsrx/src/cli/capture.rs:220-243 | an independent reader recovers addresses, ports and payload of every payload of at most 65507 bytes, and rejects every longer one, whose 16-bit lengths wrap |
| Packet.FixedBytes | crates/wsrx/src/cli/capture.rs:223-242 | the bytes no reader needs: zero link addresses, Ethernet type, identification, "don't fragment", hop limit 64, UDP, no UDP checksum |
| Packet.ChecksumOfKnownHeader | crates/wsrx/src/cli/capture.rs:246-255 | a textbook IPv4 header has checksum 0xB861 |
| Pcap.RecordRoundTrip | crates/wsrx/src/cli/capture.rs:207-218 | a written record reads back to its time, length and frame, whatever follows it |
| Pcap.RecordBytes | crates/wsrx/src/cli/capture.rs:207-218 | seconds, microseconds, the length twice and the frame, in this order and little-endian |
| Pcap.GlobalHeaderBytes | crates/wsrx/src/cli/capture.rs:195-205 | the 24 bytes of the file header: magic, version 2.4, snaplen 65535, Ethernet |
| Pcap.RecordsRoundTrip | crates/wsrx/src/cli/capture.rs:207-218 | any sequence of records reads back to exactly those records in order |
| Pcap.OutputFile.WritePacket | crates/wsrx/src/cli/capture.rs:207-218 | appends one record: seconds cut to 32 bits, microseconds, the length twice, the frame |
| Pcap.WriteMessage | crates/wsrx/src/cli/capture.rs:129-146 | appends one record per chunk of at most 65507 bytes, none for an empty message |
| Pcap.WriteCapture | crates/wsrx/src/cli/capture.rs:113-154 | the file is the global header followed by the records of all queued messages in order |
| Pcap.ChunksRestoreData | crates/wsrx/src/cli/capture.rs:138-146 | the payloads of a message's chunks, concatenated, are the message |
| Pcap.ChunksAreFull | crates/wsrx/src/cli/capture.rs:138 | every chunk but the last has 65507 bytes, the last the rest |
| Pcap.RecordsTellDirection | crates/wsrx/src/cli/capture.rs:117-146 | every record has its message's time, and goes from client to target or back as its direction says |
| Pcap.CaptureReadsBack | crates/wsrx/src/cli/capture.rs:195-218 | the file parses to exactly its records, they carry exactly the queued bytes, and with different endpoints each direction is recovered on its own |
| Pcap.MessageRespectsIff | crates/wsrx/src/cli/capture.rs:138-146 | the records of a message are within the announced snaplen if and only if it has at most 65493 bytes |
| Pcap.SnaplenRespectedIff | crates/wsrx/src/cli/capture.rs:195-218 | every record of a capture is within the announced snaplen if and only if every message has at most 65493 bytes |
| Pcap.FullFrameExceedsSnaplen | crates/wsrx/src/cli/capture.rs:195-205 | a maximal chunk makes the longest frame, 65549 bytes, above the 65535 in the global header |
| Connection.ServeConnection | crates/wsrx/src/cli/serve.rs:378-490 | every outcome attempts exactly one audit record; the result names the outcome; the captured figure is within the limit and the traffic, equals the traffic when untruncated, and is zero without a capture |
| Connection.UngracefulClose | crates/wsrx/src/cli/serve.rs:202-210 | an error naming a reset without closing handshake counts as completed if and only if something was transferred; every other error is passed on |
| Connection.NumbersWhenStopped | crates/wsrx/src/cli/serve.rs:455-468 | when the proxy has stopped, the captured figure is within limit and counters, and equals the counters when untruncated |
| Connection.FinishedNumbers | crates/wsrx/src/cli/serve.rs:468-476 | whatever the writer does while `finish` waits, the answer carries the numbers of the moment the proxy stopped |
| Connection.AuditMatchesFile | crates/wsrx/src/cli/serve.rs:470-490 | the audited figure is the total UDP payload in the file on disk, and an untruncated file holds both directions whole |
| EndToEnd.NextLinked | crates/wsrx/src/proxy.rs:334-343 | with every counted message also starting an `observe` call, each step keeps the observed streams equal to what the gateway's proxy counted |
| EndToEnd.ObservedBetweenDeliveredAndWritten | crates/wsrx/src/cli/serve.rs:450-468 | at every moment of every run, in each direction, delivered bytes are a prefix of the observed ones, those of the written ones, and the audited counter is their number |
| EndToEnd.CaptureShowsTheConnection | crates/wsrx/src/cli/serve.rs:450-490 | once closed, the file parses, its payload is the audited figure, and an untruncated one shows per direction every byte handed to the reader and nothing that was not written, as many as the counter says |
| EndToEnd.ObservingEndsWithTheProxy | crates/wsrx/src/proxy.rs:314-318 | once the gateway's proxy has stopped, nothing more is delivered, sent, counted or observed in either direction, whatever happens later |
| EndToEnd.StuckMeansDone | crates/wsrx/src/cli/serve.rs:450-490 | where no step is left, no call is in progress; with both proxies up everything written was delivered, observed and counted, and after the gateway's proxy the file is closed behind all packets |
| EndToEnd.CompleteCapture | crates/wsrx/src/cli/serve.rs:450-490 | a connection that was stopped when it had delivered everything, captured untruncated, has both conversations whole in its file |
| Proxy.Decode | crates/wsrx/src/proxy.rs:364-371 | the whole buffer becomes one message; nothing comes of an empty one |
| Proxy.Encode | crates/wsrx/src/proxy.rs:379-388 | binary data is appended, other messages add nothing |
| Proxy.EncodeThenDecode | crates/wsrx/src/proxy.rs:364-388 | after encoding any messages, decoding gives back all their bytes as one message |
| Proxy.ConversionsKeepData | crates/wsrx/src/proxy.rs:89-111 | binary and text frames carry their bytes, other frames nothing, and a message sent and received has the same bytes |
| Proxy.ForwardObserved | crates/wsrx/src/proxy.rs:326-345 | counter and observer hold exactly the bytes of the messages taken; all of them were forwarded except the last when its send failed |
| Proxy.StreamData | crates/wsrx/src/proxy.rs:334-343 | the bytes of a stream are those of its binary messages, and what is forwarded are the messages received, one by one |
| Proxy.WayStepKeepsInv | crates/wsrx/src/proxy.rs:288-345 | through two proxies bytes are conserved in order while both run, and a prefix survives when one stops |
| Proxy.StepKeepsFigures | crates/wsrx/src/proxy.rs:297-323 | far counter, sent, near counter, read and written are in that order at every step, and the near counter is ahead of sent by at most one message |
| Proxy.StepKeepsHistory | crates/wsrx/src/proxy.rs:334-343 | what either proxy counted is a prefix of what was written, and what was delivered a prefix of what the far one counted |
| Proxy.ChainDeliversPrefixes | crates/wsrx/src/proxy.rs:288-345 | over every chunking, interleaving, cancellation and end of stream, both ends hold a prefix of all the other ever wrote, each counter is within one message of what its proxy passed on, and the far counter never exceeds what the near proxy sent |
| Proxy.StoppedPassesNothing | crates/wsrx/src/proxy.rs:314-318 | over every run, a stopped proxy delivers, sends and counts nothing more in either of its directions |
| Proxy.DirectionsEndTogether | crates/wsrx/src/proxy.rs:299-318 | the two directions of a proxy start and end together |
| Proxy.ProxyStepWorks | crates/wsrx/src/proxy.rs:334-388 | every step a proxy can take that changes anything lowers the work left |
| Proxy.AnyScheduleDelivers | crates/wsrx/src/proxy.rs:288-345 | from any reachable point with both proxies up, every schedule of their steps is bounded, and where none is left everything written was delivered and the far counter is exactly that |
| Admission.ConnectionCounts.Acquire | crates/wsrx/src/cli/serve.rs:500-519 | admission below the limit counts one more; at the limit the entry stays and the request is refused |
| Admission.ConnectionCounts.Release | crates/wsrx/src/cli/serve.rs:523-532 | one fewer, and the entry goes when it reaches zero |
| Admission.StepKeepsInv | crates/wsrx/src/cli/serve.rs:360-380 | every step of every request keeps counters equal to live permits, entries positive and slots equal to their holders |
| Admission.CountersAgree | crates/wsrx/src/cli/serve.rs:494-533 | over every interleaving each counter is the number of live permits of its key, within the limit and never zero, and the sum of counters equals the used slots corrected by requests holding only one of the two |
| Admission.RejectionsAreExact | crates/wsrx/src/cli/serve.rs:362-376 | a request is refused at either limit if and only if that many holders are live |
| Admission.NothingLeaks | crates/wsrx/src/cli/serve.rs:522-533 | when all requests are over, however they ended, the table is empty and every slot free |
| Admission.EveryRequestEnds | crates/wsrx/src/cli/serve.rs:360-380 | every unfinished request can go on, upgraded or abandoned, each step brings the end nearer, and where none is left all permits and slots are back |
| Admission.LimitZeroLeavesEntry | crates/wsrx/src/cli/serve.rs:80-84 | at limit zero a refusal would leave a zero entry; at any limit of at least one it leaves no trace |
| Registry.TunnelRegistry.Persist | crates/wsrx/src/cli/serve.rs:706-731 | the state file changes only by the rename, and only to the registry in memory; success is reported exactly then |
| Registry.TunnelRegistry.LaunchTunnel | crates/wsrx/src/cli/serve.rs:301-333 | refuses an invalid or expired request without change; otherwise the record is in memory even when saving fails |
| Registry.TunnelRegistry.CloseTunnel | crates/wsrx/src/cli/serve.rs:346-354 | removes and saves, or reports an unknown key |
| Registry.TunnelRegistry.ActiveRecord | crates/wsrx/src/cli/serve.rs:599-614 | answers with the record, gone (and removes it) or not found; a failed save of the removal changes no answer |
| Registry.TunnelRegistry.RemoveExpired | crates/wsrx/src/cli/serve.rs:740-751 | drops exactly the expired records and saves only if there were any |
| Registry.StepKeepsInv | crates/wsrx/src/cli/serve.rs:301-354 | every request, clock tick and crash keeps memory and disk indistinguishable from the never-cleaned reference and its last saved value |
| Registry.LookupsAreExact | crates/wsrx/src/cli/serve.rs:335-354 | over every run a lookup finds a record if and only if the never-cleaned map has an unexpired one, and it is that record; a listing is that map filtered |
| Registry.LaunchAnswersUntilExpiry | crates/wsrx/src/cli/serve.rs:301-333 | a launch is refused without effect if and only if it is invalid or expires by now; otherwise its tunnel answers with its record exactly until the expiry, until launched, closed or restarted |
| Registry.CloseSilences | crates/wsrx/src/cli/serve.rs:346-354 | a close is turned down if and only if the key is not there, and afterwards the tunnel does not answer |
| Registry.SuccessIsDurable | crates/wsrx/src/cli/serve.rs:681-731 | a launch or close answered with success survives any restarts, crashes and failed saves, up to its expiry |
| Registry.ExpiredIsGoneOnce | crates/wsrx/src/cli/serve.rs:599-614 | a lookup answers gone if and only if the record is there and expired, drops it, and then answers not found |
| Registry.CrashRestoresBeforeOrAfter | crates/wsrx/src/cli/serve.rs:681-731 | a crash after the rename restores the live records of just after the request; an earlier one those of just before it if and only if the state file agreed with the memory, which it does when nothing has gone unsaved |
| Registry.UnsavedIff | crates/wsrx/src/cli/serve.rs:325-353 | something has gone unsaved if and only if some launch or close was answered with a save error and neither a successful save nor a restart came since |
| Registry.CrashRestoresSaved | crates/wsrx/src/cli/serve.rs:681-731 | in general a crash restores the live records as of the last successful save |
| Registry.ExpirySavesAreInvisible | crates/wsrx/src/cli/serve.rs:599-614 | removing expired records changes no answer; it changes what a restart restores if and only if it saves while the state file disagrees with the memory |
| Registry.FailedSaveStaysInMemory | crates/wsrx/src/cli/serve.rs:325-353 | over every run, a launch answered with a save error serves traffic, a close answered with one is out of service, and the state file is as it was |
| Registry.RestartAfterFailedSave | crates/wsrx/src/cli/serve.rs:325-353 | as long as its key is left alone, a restart keeps such a request if any save has succeeded since, and otherwise brings back what the state file held; both up to expiry |
| Registry.FailedLaunchServesUntilCrash | crates/wsrx/src/cli/serve.rs:325-332 | a failed launch that the next restart forgets, and one that a later launch saves |
| Retention.SortSorts | crates/wsrx/src/cli/capture.rs:312 | sorting puts the oldest first and keeps every file once |
| Retention.RemoveExpired | crates/wsrx/src/cli/capture.rs:305-309 | the age pass deletes exactly the listed files older than the cutoff whose deletion works |
| Retention.EvictOldest | crates/wsrx/src/cli/capture.rs:312-321 | evicts oldest first until the total fits; the tracked total is always the size of what remains and never saturates |
| Retention.CleanupCaptureFiles | crates/wsrx/src/cli/capture.rs:294-323 | both passes together, with each deletion free to fail |
| Retention.CleanupOutcome | crates/wsrx/src/cli/capture.rs:294-323 | with failing deletions, what survives is listed, an old survivor resisted deletion, the total is exact, and the cap is missed only if every remaining file resisted |
| Retention.CleanupWhenDeletionsWork | crates/wsrx/src/cli/capture.rs:294-323 | with working deletions no old file survives, the cap holds, evicted files are no newer than any survivor, and one eviction fewer would have exceeded the cap |
| LogText.NoWordInsideRejected | crates/desktop/src/ui/network_logs.rs:297-303 | no whole-word occurrence starts inside a rejected match of letters and digits, so the skip is safe |
| LogText.FindWord | crates/desktop/src/ui/network_logs.rs:293-306 | the loop ends with the first word-bounded occurrence, or none only if there is none |
| LogText.WordBetween | crates/desktop/src/ui/network_logs.rs:297-300 | a word between two characters counts if and only if neither is an ASCII letter or digit |
| LogText.SkipNeedsLetters | crates/desktop/src/ui/network_logs.rs:303 | for a word with other characters the skip can miss an occurrence |
| LogText.FirstLevelIsEarliest | crates/desktop/src/ui/network_logs.rs:247-259 | the specified match is the earliest of all five level words at all positions |
| LogText.EarliestLevelUnique | crates/desktop/src/ui/network_logs.rs:250-258 | that match is unique, so the order in which levels are tried does not matter |
| LogText.FindLevel | crates/desktop/src/ui/network_logs.rs:249-259 | the minimum over five searches is that earliest match |
| LogText.FormatLogs | crates/desktop/src/ui/network_logs.rs:27-44 | the text is one formatted line per entry, in order |
| LogText.ConsoleLine | crates/desktop/src/ui/network_logs.rs:23-41 | the layout of a line with and without a target, and the level in five columns |
| LogText.SpansRoundTripIff | crates/desktop/src/ui/network_logs.rs:273-290 | re-parsing a formatted entry recovers timestamp, level and target if and only if nothing in it can be mistaken for the end of the target |
| LogText.RowsOfFormattedLogs | crates/desktop/src/ui/network_logs.rs:27-44 | splitting the text gives one row per entry and an empty last row |
| LogText.ScrollbarPreview | crates/desktop/src/ui/network_logs.rs:123-146 | one line per row of the clipped window, with the colour of that row's earliest level |
| LogText.PreviewFollowsEntries | crates/desktop/src/ui/network_logs.rs:123-146 | preview row i has the colour of entry i's own level, and the colour tells the level |
| Highlight.SpansAlwaysFit | crates/desktop/src/ui/network_logs.rs:273-290 | timestamp, level and target spans of any line are ordered, disjoint and inside the line |
| Highlight.TextFilled | crates/desktop/src/ui/network_logs.rs:190-243 | the segments of all lines, gaps filled, paint every character as its own line's spans prescribe |
| Highlight.CollectSegments | crates/desktop/src/ui/network_logs.rs:191-224 | the collecting loop pushes each line's segments at that line's offset |
| Highlight.FillGaps | crates/desktop/src/ui/network_logs.rs:229-243 | the gap loop yields non-empty, contiguous runs covering exactly the visible range |
| Highlight.HighlightRange | crates/desktop/src/ui/network_logs.rs:166-244 | for any text as long as the visible range, the runs partition it and style exactly the timestamp, level and target of lines with a level |
| Highlight.PaintOfEntry | crates/desktop/src/ui/network_logs.rs:194-222 | a formatted entry position by position: timestamp dimmed, level coloured, target with its colon dimmed, all else plain |
| Highlight.Palette | crates/desktop/src/ui/network_logs.rs:46-75 | the two colour tables agree level by level, and the preview is the more opaque the more severe the level |
| Minimap.TilesFillTrackIff | docs/scrollbar-preview-simulate.py:48-49 | P6: tile heights add up to the track if and only if there is a row or no track |
| Minimap.TilesVisibleIff | docs/scrollbar-preview-simulate.py:48-49 | every tile has at least one pixel if and only if there are no more rows than pixels |
| Minimap.ThumbIsShareIff | docs/scrollbar-preview-simulate.py:23-24 | P2: the thumb covers exactly the visible rows if and only if the eight-pixel minimum does not bind |
| Minimap.FitAlignedIff | docs/scrollbar-preview-simulate.py:57-63 | P1: at every position the thumb lies exactly over the visible rows if and only if it is at the top or the minimum does not bind |
| Minimap.FitMisalignedExample | docs/scrollbar-preview-simulate.py:60-63 | 100 rows, one visible, 600 pixels: P1 fails |
| Minimap.FitShowsAll | docs/scrollbar-preview-simulate.py:37-39 | in the fit regime every position shows the whole document from its first row on the whole track, each row with at least one pixel |
| Minimap.RunFit | docs/scrollbar-preview-simulate.py:57-70 | the script's fit scan reports P1 and P2 exactly when the document overflows the viewport and the minimum binds, and P6 exactly for a track without rows |
| Minimap.SmallThumb | docs/scrollbar-preview-simulate.py:23-24 | when the minimum binds the thumb has exactly eight pixels |
| Minimap.ThumbSpansTrack | docs/scrollbar-preview-simulate.py:27-32 | the thumb starts at the top, ends at the bottom of the track, and stays there beyond the document |
| Minimap.HalvesRoundToEven | docs/scrollbar-preview-simulate.py:42 | a half rounds to its even neighbour |
| Minimap.ThumbMarksTopRow | docs/scrollbar-preview-simulate.py:77-78 | P3, sharper: the row under the thumb's edge is the top visible row to within half a row |
| Minimap.WindowAdvancesSmoothly | docs/scrollbar-preview-simulate.py:79-83 | P4: one scrolled row moves the window by no row or one, at every position and size |
| Minimap.WindowInsideDocument | docs/scrollbar-preview-simulate.py:84-87 | P5, P6: the window stays inside the document and the track, is never empty, and its tiles fill the track |
| Minimap.WindowFullEverywhereIff | docs/scrollbar-preview-simulate.py:40-45 | the window has one row per pixel everywhere if and only if at least eight rows are visible; otherwise exactly the missing rows are missing at the bottom |
| Minimap.RunWindowed | docs/scrollbar-preview-simulate.py:71-89 | the script's scan reports no failure for any windowed scenario, not only the sampled ones |
| Pool.DaemonState.LaunchInstance | crates/desktop/src/daemon.rs:302-364 | refuses a failed bind or a taken address; relabels the pair's instance if there is one; otherwise appends |
| Pool.DaemonState.RemoveInstance | crates/desktop/src/daemon.rs:367-378 | removes exactly the instances at the address, and reports whether there were any |
| Pool.DaemonState.CloseInstance | crates/desktop/src/daemon/api.rs:193-219 | the check passes if and only if the first instance at the address belongs to the caller; the removal then takes the address from the pool as other handlers left it meanwhile |
| Pool.DaemonState.GetInstances | crates/desktop/src/daemon/api.rs:153-171 | the loop returns the caller's part of the pool |
| Pool.ViewIsExact | crates/desktop/src/daemon/api.rs:153-171 | that part is all instances of the page and no others, each once, in pool order |
| Pool.DaemonState.RemoveScope | crates/desktop/src/daemon.rs:394-418 | a known scope goes, and with it exactly the instances it has when the second lock is taken; an unknown one changes nothing |
| Pool.Wsrx.Add | packages/client/src/index.ts:249-276 | a cached remote is answered locally; otherwise the daemon's answer is appended, and an error changes nothing |
| Pool.Wsrx.Delete | packages/client/src/index.ts:293-311 | after the daemon agrees, the address goes from the copy and from the pool as it is by then |
| Pool.RunsStayInSync | crates/desktop/src/daemon.rs:302-378 | any mix of pages, owner actions, lost answers and closes cut in two keeps uniqueness, and keeps every page that is not stale in agreement with the pool |
| Pool.BrowserCopyIsExact | packages/client/src/index.ts:117-136 | addresses and (remote, scope) pairs stay unique, and a page whose answers arrived and whose scope nobody else changed holds exactly its part of the pool, in order; a sync always restores that |
| Pool.RelaunchReturnsSameLocal | crates/desktop/src/daemon.rs:324-338 | relaunching a pair gives back its instance with the new label and adds nothing |
| Pool.LaunchOutcome | crates/desktop/src/daemon.rs:302-364 | each outcome of a launch by its condition; a new pair joins the end of the pool and of its page's list at the bound address |
| Pool.AnsweredAddIsExact | packages/client/src/index.ts:249-276 | after an answered add an exact copy is exact again, and ends with the new instance unless cached or refused |
| Pool.AnsweredDeleteIsExact | packages/client/src/index.ts:293-311 | after an answered delete an exact copy is exact again, without the address if the page may close it |
| Pool.CloseStepsAreDelete | crates/desktop/src/daemon/api.rs:193-219 | check and removal of the run model, with anything between, are exactly the client's delete |
| Pool.FailedCheckIsDelete | crates/desktop/src/daemon/api.rs:201-213 | a close whose check fails changes nothing, in both forms |
| Pool.OriginsAreIsolated | crates/desktop/src/daemon/api.rs:175-219 | over any run, no page's launch and no check of a close changes what another page is listed |
| Pool.RemovalVisibleIff | crates/desktop/src/daemon/api.rs:153-171 | removing an address changes a page's list if and only if the page has an instance there, and then as the page's own filter would |
| Pool.LostAnswerStaleIff | packages/client/src/index.ts:249-276 | losing the answer to an add leaves an exact copy exact if and only if the remote was cached, the bind failed or the address was taken |
| Pool.LostDeleteStaleIff | packages/client/src/index.ts:293-311 | losing the answer to a delete leaves an exact copy exact if and only if the daemon turned it down |
| Pool.RemovalSafeIff | crates/desktop/src/daemon/api.rs:199-218 | over any run, the removal changes no other page's list if and only if the check would still pass or nothing is at the address |
| Pool.DelayedCloseSafe | crates/desktop/src/daemon/api.rs:199-218 | whatever happens between check and removal, every other page is safe unless a step takes the caller's instance away: the owner's removal, the removal of its scope, or another close there |
| Pool.DelayedCloseHitsAnother | crates/desktop/src/daemon/api.rs:199-218 | a run in which the removal hits another page |
| Pool.ScopesAreIndependent | crates/desktop/src/daemon/api.rs:260-277 | hosts stay unique and each host's standing is decided by its own requests, approvals and removals alone |
| Pool.AllowedIffApproved | crates/desktop/src/daemon.rs:381-418 | a site unknown at the start is reported as allowed if and only if it asked, the owner approved it later, and has not removed it since |
| Histories.RootView.HandleLogs | crates/desktop/src/ui/root.rs:164-172 | the window keeps the last 1000 entries |
| Histories.App.ProcessEvent | crates/desktop/src/main.rs:121-190 | logs go to the shared buffer and an open window; a popup reopens a closed window from the buffer; only quit stops the pump |
| Histories.App.Gather | crates/desktop/src/main.rs:70-92 | a log event starts a batch that collects log events until the channel is empty, other events take effect at once, and then the batch is processed |
| Histories.App.Pump | crates/desktop/src/main.rs:68-101 | the event loop has exactly the effect of the step-by-step machine, the last batch included |
| Histories.HistoriesAgree | crates/desktop/src/main.rs:152-170 | after every input of every run the shared buffer is the last 1000 log events processed, and an open window lists exactly that, closings and reopenings during a batch included |
| Histories.NewestAreKept | crates/desktop/src/main.rs:155-161 | the buffer and the open window have the smaller of 1000 and all processed entries, and counted from the newest they are those, position by position |
| Histories.WindowOpenIff | crates/desktop/src/main.rs:131-150 | a window is open if and only if every closing was followed by a popup |
| Histories.NothingLostWithoutQuit | crates/desktop/src/main.rs:70-96 | without a quit, batching makes no difference to the final buffer and window |
| Histories.QuitDropsBatch | crates/desktop/src/main.rs:78-82 | a quit drops exactly the log events gathered since the channel was last empty, so nothing if and only if there are none |
| Histories.AuditFile.Append | crates/wsrx/src/cli/capture.rs:156-180 | rotates at 16 MiB, then appends the line and its end; a failed rename appends nothing |
| Histories.AuditIsWholeLineSuffix | crates/wsrx/src/cli/capture.rs:163-179 | rotated and live file together are the last appended lines, each whole; lines are missing only when at least 16 MiB of later ones are kept |
| Histories.AuditFilesStaySmall | crates/wsrx/src/cli/capture.rs:163-171 | neither file outgrows 16 MiB by more than one line |

## Left out

- Sockets, TLS, WebSocket framing, HTTP routing, CORS and its suffix matching, task scheduling, JSON and TOML encoding: replaced by channels, parameters and success or failure choices.
- Write errors inside a capture file and inside an audit line: the writer logs the former and goes on, and a partial record is not modelled.
- The derivation of capture endpoints from address strings, path segments and forwarded headers: both endpoints are parameters.
- Overflow of 64-bit counters and size sums: they are unbounded integers. The 16-bit lengths, the 32-bit checksum sum and the 32-bit seconds are bounded as in the code.
- Relaxed memory ordering beyond interleaved atomic steps; a traffic counter and the first budget load of a call are one step.
- Mutex poisoning, random identifiers, process exit, tray, lock file, rendering, locale and latency fields.
- The directory walk that collects capture files: the listed files are a parameter, without duplicates.
- Two registry saves at the same time, and a launch between the two locks of an expiry removal: requests and saves run one at a time.
- Validation of keys and targets: one boolean parameter. The retention cutoff, computed from the clock and a number of days, is a parameter too.
- IEEE rounding in the minimap script, its tolerances and its printing: exact real numbers. Tracks of fewer than eight pixels in the windowed regime, and viewports as tall as a document that does not fit the track.
- Log text outside ASCII, and rope lines that are not stored in one piece.
- Retrying HTTP requests, version checks, website information updates and the connection state of the browser client; it keeps its list and scope only.
- A window closed in a way that quits the application: it is the same as a quit.
- HighlightRange: only for a text as long as the visible range, which is how the editor calls it.
- Pool.DaemonState.RemoveScope: only the instances are shown as other handlers leave them between the two locks; requests for the same scope in between touch the scope list only, which is covered by `ScopesAreIndependent`.
- Pool.AllowedIffApproved: about the reported status; the pool handlers never look at it, and the cross-origin rule accepts every listed scope.
