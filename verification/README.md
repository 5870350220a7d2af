# Verified model of the agent-circle messaging core

This project models, in Dafny, the parts of agent-circle that move and protect
messages, and proves what they keep:

- **One-to-one delivery.** The chat arms of the daemon's event loop: flush of the
  offline queue when a peer connects, acknowledgement, outbound failure with retry and
  hand-off, the maintenance tick, and crash followed by recovery; on the receiving side
  the sequence tracker and the replay filter.
- **Fragmentation.** Cutting a large message into 64 KiB pieces, the textual fragment
  header, and reassembly.
- **The hash-linked timeline.** What is hashed, what is signed, `append`, `verify`, and
  what a tip id says about the history below it.
- **Markdown to terminal escapes**, as used for the view of a published service.

Components that change state in place (`SequenceTracker`, `DedupFilter`,
`PendingTracker`, `Queue`, `FragmentReassembler`, `Timeline`, and `Daemon`, which holds the
local variables of `run_daemon`) are classes. Each method is proved equal to a function
on values, and the theorems about whole runs are lemmas about those functions.

| file | content |
|---|---|
| `Base`, `Chat` | machine integers, options, filters; the wire request |
| `Dedup`, `Sequence`, `Inbox` | replay filter, reordering, and the receive arm over runs |
| `Reliability`, `MessageQueue`, `Outbox` | tracker, tables, and the sending step machine |
| `Ledger`, `LedgerMoves` | where every message ever pushed is, and how it moves |
| `Conservation`, `Recovery`, `Persistence`, `Accounting`, `Delivery` | the run theorems about sending |
| `Daemon` | the event arms as methods over the shared objects |
| `Flights`, `Budget` | everything transmitted for one message, how often, and how often a receiver processes it |
| `EndToEnd`, `Scenarios` | one node's flush against another node's sequence tracker, and two concrete runs |
| `Decimal`, `FragmentCodec`, `Utf8`, `Splitting`, `Reassembly`, `FragmentRoundTrip` | fragmentation |
| `Timeline`, `Readings` | payloads, verification, same tip and same history; what verification cannot tell apart |
| `Markdown` | the scanner and its translation |

## How to read the delivery theorems

`Ledger.Ledger` numbers every push and records one place for it: a queue row, a request
id in flight, acknowledged, or dropped. `Ledger.Follow` moves the entries with each event.
`Ledger.Conserved` ties the ledger to the daemon's own state: the undelivered rows are the
queued messages one for one, the tracker entries are the messages in flight one for one,
each row and entry still has the peer, content and expiry of the push, and a dropped
message had expired. `Delivery.Healthy` adds the agreement of memory with the pending
table and the balance of the counters, and `Delivery.EveryRunConserves` proves it for every
run. `Outbox.Sent` is what a step puts on the wire; the event arms of `Daemon` are proved
to send exactly that.

The environment is bounded by `Outbox.Enabled` only: request ids are fresh and below 2^64,
a failure names the peer its request went to, a database query returns each row once in
the requested order. Events it does not allow in a state are skipped. Wall-clock readings
are event parameters with no assumption of monotonicity. Crashes happen between events and
storage calls succeed.

## Where the code falls short of a stronger claim

- **Reassembly.** The documentation comment in `src/fragment.rs` promises that the
  receiver restores the message. Each piece is decoded on its own with lossy UTF-8, so
  this holds exactly if no 64 KiB cut falls inside a character
  (`Splitting.ChunksRestoreIffCutsOnBoundaries`, `FragmentRoundTrip.ReassemblyUndoesSplitting`);
  `Splitting.SomeMessageIsDamaged` is a message it damages. The header's 32-bit total
  covers the message exactly if the count fits (`Splitting.FragmentsCoverIffCountFits`).
- **Ordered delivery after a reconnect.** The sequence counter is shared by all peers, but
  a receiver expects each sender to start at 1. Provided nothing else arrives under one of
  its numbers, a flush reaches a receiver exactly if every number below the counter has
  reached that receiver too since its reset (`EndToEnd.FlushIsDeliveredIff`); if nothing
  else arrives at all, exactly if the counter stood at 1. `Scenarios.SecondPeerHearsNothing`
  is a run in which the second peer served is sent number 2, acknowledges it and has nothing
  delivered. The proviso is needed: recovered messages keep their old numbers while the
  counter starts again at 1 (`Scenarios.RecoveredNumberIsReused`). Of several arrivals with
  one number the latest before the gap closes is delivered (`EndToEnd.DeliveredIsLatest`).
- **An ACK does not mean processed.** Every request is acknowledged; it is processed at its
  arrival exactly if it is the next of its peer and its id is not in the replay window
  (`Inbox.AcknowledgedIsProcessedIff`), and a number is ever delivered exactly if all
  numbers from 1 up to it arrive (`Sequence.DeliveredIffAllArrived`). Ad-hoc sends carry
  number 0, so they never are.
- **Timeline verification.** The protocol document (under docs, line 347) asks that parents
  exist and that no id occurs twice; the code checks nodes one by one. It accepts every
  series of correctly signed posts, whatever parents they name; the documented check accepts
  exactly those in which each named parent is an earlier post and no post is repeated,
  unless two texts have one digest (`Readings.SignedSeriesIsAccepted`).
  `Readings.DanglingParentVerifies` is a timeline that passes with a missing parent.
  Timelines built by `append` meet the document.
- **Payload formats.** A verified post can be read as another one, with the same hash and a
  valid signature, exactly if it has two or more parents, or one parent and one of these: a
  bar and a number in the content, up to its end or to the next bar; a comma in the parent;
  in the parent a number from its start or a bar up to a bar (`Readings.AlterableIff`). In a
  linked timeline only the first of these can occur (`Readings.LinkedAlterableIff`). So a
  tip id alone does not fix the history of a timeline that merely verifies
  (`Readings.AlteredTipVerifies`). It does among linked timelines
  (`Timeline.VerifiedTipDeterminesHistory`), and in timelines of any shape an id fixes all
  ancestors as soon as the documented check of parents is made
  (`Readings.SameIdSameAncestors`).
- **Fragment header.** The parser accepts leading zeros and a plus sign; encoding a decoded
  header gives it back exactly if it has neither (`FragmentCodec.EncodeDecodeIff`).
- **Replay window.** 10,000 ids as in `src/dedup.rs:12`, not the 1024 of
  the protocol document (under docs, line 400); and the code orders before it filters, where
  that document (line 140) draws the filter first.
- **Markdown.** Output is balanced if none of the escape sequences in use occurs in the
  input (`Markdown.TranslationIsBalanced`). One that does can stay open
  (`Markdown.RawSequenceBreaksBalance`); an opener inside a styled text always breaks the
  balance (`Markdown.OpenerInStyledTextBreaksBalance`); for input without markers the output
  is balanced exactly if the input is (`Markdown.UnmarkedIsBalancedIff`).

## Model

| member | source | states |
|---|---|---|
| Dedup.DedupFilter.IsDup | src/dedup.rs:31-44 | the answer is true iff the id was accepted before and fewer than 10,000 others have been accepted since; then the history stays, else it grows by the id; set and queue stay one duplicate-free window |
| Dedup.KnownIff | src/dedup.rs:31-44 | for the last acceptance of an id: asking again leaves the history as it is iff fewer than 10,000 acceptances followed |
| Dedup.AnswerIff | src/dedup.rs:31-44 | the same after every series of questions; an id that never occurred is accepted |
| Dedup.ReacceptanceIsSpaced | src/dedup.rs:11-44 | for every series of questions, two acceptances of one id have at least 10,000 other acceptances between them |
| Dedup.WindowHasNoDuplicates | src/dedup.rs:14-19 | the window of a spaced history repeats no id, so set and queue have the same size |
| Sequence.SequenceTracker.Ingest | src/sequence.rs:35-67 | what is delivered and the whole new state, for stale, next and early messages |
| Sequence.SequenceTracker.Deliver | src/sequence.rs:43-60 | the next message and the contiguous run that waited for it; an emptied buffer is removed |
| Sequence.SequenceTracker.Flush | src/sequence.rs:49-55 | the flush loop takes exactly the contiguous run and leaves the last number at its end |
| Sequence.SequenceTracker.TakeOne | src/sequence.rs:51-54 | one turn of that loop: the message leaves the buffer and its number becomes the last one |
| Sequence.SequenceTracker.ResetPeer | src/sequence.rs:72-75 | one peer's number and buffer are forgotten, nothing else |
| Sequence.DeliveryIsInOrder | src/sequence.rs:29-75 | in every run with resets, a peer's deliveries since its reset are arrived messages numbered 1..k, k+1 has not arrived, and exactly the arrived later numbers are buffered |
| Sequence.Confluence | src/sequence.rs:29-67 | two runs in which the same numbers arrived, in any order and with repeats, agree on last number, deliveries and buffer under any reading in which equal numbers look alike |
| Sequence.DeliveredIffAllArrived | src/sequence.rs:35-75 | over every run, a number has been delivered since the reset iff all numbers from 1 up to it have arrived since |
| Sequence.DeliveredAtArrival | src/sequence.rs:38-60 | an arrival delivers last + 1, last + 2, ... without a gap, and itself iff it is the next |
| Sequence.RunIsWellNumbered | src/sequence.rs:35-75 | in every run what waits is filed under its own number and lies beyond the missing one |
| Inbox.AdmittedIsUnseen | src/network.rs:635-642 | filtering batch by batch equals filtering the whole delivery log |
| Inbox.ProcessedIsFilteredDelivery | src/network.rs:623-648 | over every run with reconnects, the processed messages are the replay-filtered concatenation of deliveries, and the duplicate counter counts the rest |
| Inbox.SkippedWasProcessed | src/network.rs:636-638 | a delivered message that is skipped carries the id of one processed earlier |
| Inbox.ProcessedIncreases | src/network.rs:546-648 | within one connection epoch the sequence numbers processed from a peer strictly increase |
| Inbox.ProcessedAtArrivalIff | src/network.rs:634-642 | in any well-numbered state, an arriving message is processed at once iff it is the next of its peer and its id is not in the replay window |
| Inbox.AcknowledgedIsProcessedIff | src/network.rs:633-648 | the same over every run: which of the requests, all of them acknowledged, are processed at their arrival |
| Inbox.AdHocIsNeverDelivered | src/network.rs:153 | a message numbered 0 is never delivered in any run, at its arrival or later |
| Reliability.PendingTracker.Track | src/reliability.rs:47-72 | the entry is registered with zero retries under its id |
| Reliability.PendingTracker.Ack | src/reliability.rs:76-78 | returns and removes the entry, if there is one |
| Reliability.PendingTracker.Fail | src/reliability.rs:86-91 | returns the entry with one more retry and removes it |
| Reliability.PendingTracker.Retrack | src/reliability.rs:94-96 | the entry comes back under the new id |
| MessageQueue.Queue.PushWithTtl | src/message_queue.rs:91-102 | appends an undelivered row under a never-used id |
| MessageQueue.Queue.MarkDelivered | src/message_queue.rs:129-135 | marks the row and no other |
| MessageQueue.Queue.MarkFailed | src/message_queue.rs:138-144 | counts the failure in the row and no other |
| MessageQueue.Queue.ExpireBefore | src/message_queue.rs:191-197 | removes exactly the undelivered rows whose expiry is at or before the cutoff |
| MessageQueue.Queue.PruneDelivered | src/message_queue.rs:200-205 | removes exactly the delivered rows |
| MessageQueue.Queue.PushPending | src/message_queue.rs:211-240 | inserts or replaces the row, u64 fields cast to signed columns |
| MessageQueue.Queue.RemovePending | src/message_queue.rs:243-249 | deletes the row of that request id |
| MessageQueue.Queue.LoadAllPending | src/message_queue.rs:261-281 | every stored row exactly once, by ascending creation time, casts undone |
| MessageQueue.Queue.ExpirePending | src/message_queue.rs:284-289 | deletes exactly the rows with a ttl below the cutoff |
| MessageQueue.QueueIsFifo | src/message_queue.rs:91-205 | under any interleaving of operations, whatever the purge times, pending_for answers in push order with the peer's unexpired pushes that were neither delivered nor expired at some later purge |
| MessageQueue.PurgeIsInvisible | src/message_queue.rs:190-205 | purges at t change no answer at or after t |
| MessageQueue.AllPendingIsConcatenation | src/message_queue.rs:167-188 | all_pending is the concatenation of pending_for over peers in ascending order |
| MessageQueue.CastsRoundTrip | src/message_queue.rs:227-275 | the u64/i64 casts are inverse in both directions and keep the value modulo 2^64 |
| MessageQueue.StoreThenLoad | src/message_queue.rs:223-281 | a stored row loads with every u64 field unchanged |
| Conservation.FlushAllKeeps | src/network.rs:549-594 | a flush moves each waiting row of the peer into flight, once, and keeps all other messages |
| Conservation.AckKeeps | src/network.rs:658-669 | an ACK settles exactly the message in flight under that id |
| Conservation.RetryKeeps | src/network.rs:683-719 | a retry keeps the message under its new request id |
| Conservation.HandOffKeeps | src/network.rs:720-735 | exhausted retries give the message back to the queue with its own expiry |
| Conservation.PurgeKeeps | src/network.rs:871-882 | the tick drops exactly queued messages that have expired |
| Recovery.RecoverAllKeeps | src/network.rs:477-527 | re-sending the stored rows one by one keeps all messages and leaves only expired ones unrecovered |
| Recovery.RestartKeeps | src/network.rs:462-529 | crash and recovery keep every message; one not recovered had expired |
| Persistence.StepPersists | src/network.rs:466-886 | every step keeps memory and the pending table in agreement; an entry without a row has a ttl that a purge (not a recovery) has passed |
| Persistence.RecoveryRetracksEachOnce | src/network.rs:466-529 | each stored unexpired row is re-tracked exactly once, in load order, under consecutive fresh ids |
| Accounting.StepBalances | src/network.rs:561-733 | every step keeps sent = acked + failed + in flight and retried = 3 failed + retries of pending and ACKed entries |
| Accounting.BalancedIsBounded | src/reliability.rs:16 | then sent + retried is at most four times sent |
| Delivery.EveryRunConserves | src/network.rs:466-886 | in every reachable state each message ever pushed is in exactly one place, held there unchanged; memory agrees with the table; the counters balance |
| Delivery.RetryBudget | src/network.rs:683-720 | the counters never show more than three retries per message sent, in every reachable state |
| Delivery.PurgeSchedule | src/network.rs:864-886 | over every run: every tenth firing since the process started leaves exactly the queue rows that are neither delivered nor expired and the pending rows whose ttl has not passed; other firings change nothing |
| Delivery.NothingLostNothingDuplicated | src/network.rs:466-886 | pushes = undelivered rows + tracker entries + ACKed + expired |
| Delivery.IdentityIsStable | src/network.rs:487-698 | through retry and recovery sender, msg_id, seq and ts stay; origin never changes; ACKed and dropped are final; each change of place needs its event |
| Delivery.FlushRespectsOriginalExpiry | src/network.rs:558-730 | a queued message is flushed if its original expiry is ahead, and with an expiry only then, also after a hand-off |
| Flights.SentIsRegistered | src/network.rs:487-720 | everything a step sends is tracked afterwards under the id it was sent with, for the peer it went to |
| Flights.SentForOneMessage | src/network.rs:487-720 | every transmission carries exactly one of the messages in flight |
| Flights.SentTimes | src/network.rs:487-694 | over every step: a flush and a retry carry the time of their event; a re-send after a crash carries the time on record for its message |
| Flights.SentIsStored | src/network.rs:563-716 | what a flush or a retry sends is stored under its id with the time of the event, and with the retries used so far |
| Flights.RecoveryIsExact | src/network.rs:477-527 | the j-th request of a recovery is the j-th unexpired stored row, field by field; its row comes back with its retries and the time of the event, its entry with no retries |
| Flights.FlightIsUniform | src/network.rs:487-698 | over every run, all transmissions of one flight (send, retries, re-sends after crashes) carry the pushed content and expiry and one sender, msg_id and seq |
| Flights.FlightCopies | src/network.rs:691-700 | two transmissions of one flight differ in ts at most |
| Flights.FlightIsProcessedOnce | src/network.rs:623-720 | sender and receiver together: two processings of one flight have at least 10,000 other processed messages between them |
| Budget.CountersCountTransmissions | src/network.rs:487-720 | in every reachable state sent + retried is the number of requests put on the wire in this process lifetime, at most four per message sent |
| Budget.FlightIsInBudget | src/network.rs:683-720 | for every push in every run: within one lifetime a flight is transmitted at most four times, and exactly once more than its entry counts retries |
| Budget.HandOffAfterFour | src/network.rs:683-735 | when a send fails: a flight transmitted fewer than four times in this lifetime goes on, one transmitted four times returns to the queue |
| Daemon.Daemon.Recover | src/network.rs:466-529 | recovery is the restart step of the sending machine, and sends what that step sends |
| Daemon.Daemon.ClearStale | src/network.rs:474-476 | after the loop over the loaded rows the pending table is empty |
| Daemon.Daemon.Resend | src/network.rs:477-527 | the loaded rows are re-sent one after the other, in load order, each unexpired one as one request |
| Daemon.Daemon.RecoverRow | src/network.rs:478-526 | an expired row is skipped; any other is sent as it was stored, old ts and number included, stored and tracked under a fresh id, and counted |
| Daemon.Daemon.OnConnectionEstablished | src/network.rs:539-595 | numbering of the peer is reset, the flush is the step of the machine, and the requests sent are the waiting rows in order, each field written out |
| Daemon.Daemon.FlushQueue | src/network.rs:548-594 | the loop over the waiting rows is the flush step, and its requests are the rows in order |
| Daemon.Daemon.FlushRow | src/network.rs:551-592 | one row: counter, request, tracker entry, pending row, mark delivered |
| Daemon.Daemon.OnRequest | src/network.rs:623-648 | order first, then filter; always acknowledged, yet the request is among the processed ones iff it is the next of its peer under an id outside the window, so never with number 0 |
| Daemon.Daemon.Process | src/network.rs:635-642 | the batch loop processes exactly the admitted messages and counts the others |
| Daemon.Daemon.ProcessOne | src/network.rs:636-642 | one message: processed iff its id is not in the window, which then moves on; otherwise counted as a replay |
| Daemon.Daemon.OnAck | src/network.rs:651-670 | the ACK step; nothing for an unknown id |
| Daemon.Daemon.OnOutboundFailure | src/network.rs:672-740 | the failure step: with fewer than three retries the request goes out again with the current time and all else kept; otherwise the content is queued with its ttl; nothing is sent for an unknown id |
| Daemon.Daemon.OnTick | src/network.rs:864-889 | the tick step with its purge every tenth time |
| EndToEnd.FlushIsDeliveredIff | src/network.rs:546-592 | a flush, each request arriving once or more and retried copies included, is delivered iff every number below its first has arrived at the receiver too since the reset |
| EndToEnd.FlushIsDeliveredIffCounterIsOne | src/network.rs:434-592 | if nothing but the flush arrives: iff the shared counter stood at 1 |
| EndToEnd.DeliveredInQueueOrder | src/network.rs:550-592 | delivered requests come out in queue order, right after the numbers below |
| EndToEnd.DeliveredIsLatest | src/sequence.rs:38-66 | of several arrivals with one number, the latest before the gap closes is delivered, and later ones are dropped |
| Scenarios.SecondPeerHearsNothing | src/network.rs:434-592 | a run: one message for each of two peers, both connect, the second is sent number 2, delivers nothing and its ACK settles the message |
| Scenarios.RecoveredNumberIsReused | src/network.rs:466-592 | a run: a recovered message and a new one both carry number 1, and a receiver that gets both delivers only the first to come |
| FragmentCodec.DecodeEncode | src/fragment.rs:30-50 | decoding undoes encoding for every u64 id and u32 index and total |
| FragmentCodec.DecodeAcceptsExactlyHeaders | src/fragment.rs:40-50 | the parser succeeds exactly on the three-field headers whose fields denote numbers within their types, and returns them |
| FragmentCodec.EncodeDecodeIff | src/fragment.rs:30-50 | encoding a decoded header gives it back iff no field has a plus sign or a leading zero |
| FragmentCodec.EncodeDecodeIsNotIdentity | src/fragment.rs:40-50 | a header the parser accepts and the printer would write differently |
| Splitting.SplitLargeMessage | src/fragment.rs:62-114 | one unfragmented request up to 64 KiB, else one request per slice, with its header |
| Splitting.FragmentWrittenOut | src/fragment.rs:82-111 | above 64 KiB: how many requests, and request i field by field, its slice bounds and its header text included |
| Splitting.SlicesPartition | src/fragment.rs:82-88 | as few slices as possible, non-empty, at most 65,536 bytes, all but the last full, concatenating to the message |
| Splitting.FragmentsCoverIffCountFits | src/fragment.rs:83 | the fragments carry the whole message iff the count fits 32 bits |
| Splitting.ChunksRestoreIffCutsOnBoundaries | src/fragment.rs:86-89 | the decoded pieces concatenate to the message iff every cut is a character boundary |
| Splitting.SomeMessageIsDamaged | src/fragment.rs:89 | a valid message whose pieces do not restore it |
| Utf8.ValidIffEncoded | src/fragment.rs:89 | valid text is exactly what encoding a sequence of Unicode scalar values gives, by the table of section 3 of RFC 3629 |
| Utf8.LossyIsIdentityIffValid | src/fragment.rs:89 | lossy decoding changes nothing exactly on valid text |
| Utf8.CutAtBoundary | src/fragment.rs:87-89 | cutting valid text at a character boundary gives two valid texts |
| Reassembly.FragmentReassembler.Ingest | src/fragment.rs:141-202 | returns the message iff every index below the session total is buffered, in index order, and removes the session; else stores the fragment; what the session consists of is told from the arrivals by FragmentRoundTrip.ResultIsLatest |
| Reassembly.FragmentReassembler.Scan | src/fragment.rs:188-196 | the index loop yields the in-order concatenation, or nothing at the first gap |
| Reassembly.FragmentReassembler.Finish | src/fragment.rs:186-201 | a complete session is removed and its text returned; an incomplete one stays |
| Reassembly.FragmentReassembler.TotalBufferedFragments | src/fragment.rs:210-212 | the sum of the counters is the number of distinct buffered (session, index) pairs |
| Reassembly.FragmentReassembler.PurgeStale | src/fragment.rs:215-220 | drops exactly the sessions older than 60 seconds and returns their number |
| Reassembly.IngestKeepsCounts | src/fragment.rs:178-184 | for arbitrary fragments, received stays the number of distinct buffered indices |
| Reassembly.CompleteIsCounted | src/fragment.rs:187 | a complete session always passes the count test |
| Reassembly.OthersUntouched | src/fragment.rs:155-202 | a message touches no session but its own |
| FragmentRoundTrip.SessionHoldsLatest | src/fragment.rs:155-184 | whatever arrives, at whatever times: an open session holds exactly the indices of its batch, each with the latest chunk, and the total and the time of its first arrival; an arrival joins the batch iff it is at most 60 seconds younger than the first |
| FragmentRoundTrip.ResultIsLatest | src/fragment.rs:155-201 | a fragment yields a text iff every index below the first announced total is in its batch, and the text is the latest chunk of each in index order |
| FragmentRoundTrip.UnfragmentedPassesThrough | src/fragment.rs:141-152 | a message without a readable header comes out as it is and touches no session |
| FragmentRoundTrip.IncompleteIsBuffered | src/fragment.rs:141-202 | while an index is missing the session holds exactly the chunks that arrived |
| FragmentRoundTrip.ReassemblyUndoesSplitting | src/fragment.rs:62-202 | in any order, with repeats, between other traffic: nothing until every index arrived, then the whole message, its session gone, others untouched; it is the original iff no cut is inside a character |
| FragmentRoundTrip.SmallMessagePassesThrough | src/fragment.rs:69-152 | an uncut message comes out as it is and leaves no session |
| Timeline.FeedHasher | src/timeline.rs:152-167 | the pieces fed to the hasher concatenate to the hash input |
| Timeline.TextsWrittenOut | src/timeline.rs:151-183 | the hashed and the signed text, field by field |
| Timeline.HashInputInjective | src/timeline.rs:151-167 | equal hash inputs have equal author, content, ts and parents, content being arbitrary, if authors have no bar and parents no bar or comma |
| Decimal.ShowIntDenotes | src/timeline.rs:158 | a time is shown as a minus sign if negative and its decimal digits without leading zeros |
| Timeline.SigningPayloadInjective | src/timeline.rs:169-183 | the same for the signed text, ids being 64-character digests |
| Readings.TwinIff | src/timeline.rs:152-167 | for every post, whatever its parents look like: another post has its hashed text iff it has two or more parents, or one and its content holds a time, its parent holds a comma, or its parent holds a time |
| Readings.TwinVerifiesAlike | src/timeline.rs:97-130 | posts with one hashed text verify alike under one id and signature |
| Readings.AlterableIff | src/timeline.rs:97-183 | for every post that verifies: it can be altered so that id, hash and signature still check, without any digest collision, iff its text can be read otherwise |
| Readings.LinkedAlterableIff | src/timeline.rs:67-183 | in a linked timeline that verifies, such as appends build: exactly the posts after the first whose content holds a time |
| Readings.AlteredTipVerifies | src/timeline.rs:67-130 | a timeline built by two appends and an altered copy: both verify, same ids and hashed texts, different histories |
| Timeline.Timeline.Genesis | src/timeline.rs:46-63 | the first post has no parents and is the one append would build |
| Timeline.Timeline.Append | src/timeline.rs:67-93 | the new post names the last one and is signed over its own payload |
| Timeline.Timeline.Check | src/timeline.rs:99-127 | one node passes iff it is genuine: the id is the hash, the author a key, the signature 64 bytes that verify the signed text under it; otherwise the first fault there is |
| Timeline.Timeline.Verify | src/timeline.rs:97-130 | succeeds iff every node is genuine; otherwise names the first that is not and the first thing wrong with it |
| Timeline.FaultIsExact | src/timeline.rs:99-127 | when each fault is reported, in the order of the checks, and when none is |
| Timeline.ForgeryIsRejected | src/timeline.rs:107-127 | if a signature verifies one text at most under a key: a genuine post whose signed text is changed fails as a hash mismatch or an invalid signature |
| Timeline.GenuineIsUnforgeable | src/timeline.rs:97-183 | then, with digests for parents, no other genuine post has the same author and signature |
| Timeline.BuiltVerifies | src/timeline.rs:65-130 | any run of appends from the empty timeline verifies and stays linearly linked |
| Readings.SignedSeriesIsAccepted | src/timeline.rs:97-130 | over every series of correctly signed posts with parents at will: verification accepts, and the documented check accepts iff each named parent is an earlier post and no post is repeated, unless two texts have one digest |
| Readings.VerifiedIsDocumentedIff | src/timeline.rs:97-130 | the same for any timeline that verifies |
| Readings.SameIdSameAncestors | src/timeline.rs:95-167 | two timelines of any shape that verify and have all their parents: posts with one id have the same ancestors, equal in author, content, ts and parents, unless two texts have one digest |
| Readings.SignedPostIsAccepted | src/timeline.rs:97-130 | one more signed post always verifies; the documented check accepts it iff its parents are there and its id is new |
| Readings.DanglingParentVerifies | src/timeline.rs:97-130 | a timeline that verifies and names a parent no post has |
| Readings.BuiltIsAsDocumented | src/timeline.rs:65-130 | timelines built by appends have all their parents, and pass the documented check unless two of their own texts have one digest |
| Timeline.SameTipSameHistory | src/timeline.rs:67-167 | two linked timelines with checked ids and one tip id agree on every post, or contain two different texts with one digest |
| Timeline.VerifiedTipDeterminesHistory | src/timeline.rs:95-130 | a linked timeline against any other, both verifying and with one tip id: they have one history iff the other is linked too, unless two different texts have one digest |
| Markdown.RenderMarkdown | src/main.rs:2609-2720 | the scanner terminates and its output is the translation of the token sequence |
| Markdown.OutputFirst | src/main.rs:2621-2717 | from any position on, the output is one piece and then the output from where scanning goes on |
| Markdown.HeaderPiece | src/main.rs:2624-2636 | a number sign at a line start: the rest of the line between ESC[1;4m and ESC[0m |
| Markdown.BoldPiece | src/main.rs:2638-2651 | two stars up to the next two: the text between in ESC[1m |
| Markdown.LoneStarsPiece | src/main.rs:2638-2656 | two stars without another pair stand for themselves |
| Markdown.ItalicPiece | src/main.rs:2658-2674 | a single star up to the next single one: the text between in ESC[3m |
| Markdown.CodePiece | src/main.rs:2676-2687 | a tick up to the next tick: the text between in ESC[7m |
| Markdown.BulletPiece | src/main.rs:2689-2698 | a dash and a space at a line start: two spaces and a bullet |
| Markdown.RulePiece | src/main.rs:2700-2713 | three or more dashes at a line start: thirty line characters in ESC[2m |
| Markdown.PlainPiece | src/main.rs:2715-2716 | any other character stands for itself |
| Markdown.BoldRendered | src/main.rs:2638-2651 | a whole text in double stars; likewise Markdown.ItalicRendered, CodeRendered, HeaderRendered, RuleRendered and BulletRendered |
| Markdown.ScanBranch | src/main.rs:2624-2687 | header, bold, lone stars, italic and code branches: output and next position of the token, which the pieces above write out |
| Markdown.ScanDash | src/main.rs:2689-2716 | bullet, rule and plain branches: output and next position |
| Markdown.TokenKinds | src/main.rs:2625-2706 | exactly when each form is recognised, without reference to the search |
| Markdown.TokenExtents | src/main.rs:2626-2712 | styled text never contains its own closing marker; an italic is not empty; a rule has at least three dashes |
| Markdown.TokenEnds | src/main.rs:2626-2712 | a header ends at a line end; a rule takes all its dashes |
| Markdown.ScanIsLossless | src/main.rs:2621-2717 | the consumed slices, in order, are the whole input |
| Markdown.TranslationIsBalanced | src/main.rs:2610-2615 | for input in which none of the escape sequences in use occurs, every style is closed before the next, none is left open, and the visible text is the input without markers |
| Markdown.UnmarkedIsUnchanged | src/main.rs:2715-2716 | text without '#', '*', '`' and '-' comes out unchanged |
| Markdown.UnmarkedIsBalancedIff | src/main.rs:2715-2716 | input without markers is translated to balanced output iff it is balanced itself |
| Markdown.OpenerInStyledTextBreaksBalance | src/main.rs:2624-2687 | if the first sequence inside some styled text is an opener, the output is not balanced, whatever surrounds it |
| Markdown.RawSequenceBreaksBalance | src/main.rs:2715-2716 | an input that is itself an opener, which stays open to the end of the output |

## Left out

- The libp2p swarm, dialling, discovery, relay, group chat, the doctor protocol and service
  announcements: library behaviour; only the chat events remain, as inputs.
- SQLite, JSON and file storage: tables are rows in memory and calls succeed, so the
  warnings and skipped branches for storage errors do not occur.
- Peer ids as parsed values: a peer is its text form; stored rows come from a peer id, so
  the branch for an unparsable one does not occur.
- Crashes inside an event arm, between deleting a row and writing its successor.
- Clocks, random message ids and request ids: parameters of the events; one reading per event.
- Ed25519, BLAKE3, base58 and key decoding: parameters with a contract; the hashed and signed
  texts are character strings, their UTF-8 encoding being injective.
- Sequence numbers next to 2^64 in the receiver: `last + 1` is computed on naturals.
- Seconds differences near the ends of the 64-bit range and a fragment counter of 2^32:
  `now - started_at` and `received` are computed on integers.
- `from_utf8_lossy`, string splitting and number parsing belong to the standard library;
  they are written out from its documentation.
- Free-form JSON parameters of a service call, creation texts of queue rows and instants kept
  for logging: they influence nothing modelled.
- Timeline.Timeline.Verify: the index of a bad author key is reported like the others,
  while the code's message for that fault carries no index.
- `push` without expiry, `remove_pending_by_msg`, `stats`, lengths and other counts that only
  read, `is_first` and `is_last`: they would only add easy members.
- Liveness of delivery, which the shared counter does not give.
- The user interface, command line, registry, ratings, contacts, disk and crash reports.
