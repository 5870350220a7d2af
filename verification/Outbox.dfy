/** The sending half of the daemon as a step machine: one step per event arm.
    State that survives a crash (`messages`, `table`) and state that does not. */
module Outbox {
  import opened Base
  import opened MessageQueue
  import opened Reliability
  import opened Chat

  datatype Counters = Counters(sent: nat, acked: nat, retried: nat, failed: nat, queued: nat)

  const ZERO := Counters(0, 0, 0, 0, 0)

  datatype Outbox = Outbox(
    tracker: InFlightMap,
    messages: seq<MessageRow>,
    lastId: nat,
    table: PendingTable,
    counters: Counters,
    seqCounter: u64,
    nextRequest: nat,
    ticks: nat)

  const FRESH := Outbox(map[], [], 0, map[], ZERO, 1, 1, 0)

  datatype Event =
    | Enqueue(peer: string, content: Text, expiresAt: Option<i64>)
    | Connected(peer: string, from: string, now: i64, msgIds: seq<u64>)
    | AckReceived(id: u64)
    | SendFailed(id: u64, peer: string, now: i64)
    | Tick(now: i64)
    | Restart(now: i64, firstRequest: nat, keys: seq<i64>)

  // ── The steps ───────────────────────────────────────────────────────

  function Stored(id: u64, peer: string, e: PendingEntry, createdAt: i64): StoredPending {
    StoredPending(id, peer, e.from, e.content, e.ts, e.msgId, e.ttl, e.seqNo, e.retries, createdAt)
  }

  function Enqueued(s: Outbox, peer: string, content: Text, expiresAt: Option<i64>): Outbox {
    s.(messages := s.messages + [Pushed(s.lastId + 1, peer, content, expiresAt)], lastId := s.lastId + 1)
  }

  /** The shared sequence counter i steps on; the 64-bit counter wraps around. */
  function SeqAfter(counter: u64, i: nat): u64 {
    (counter + i) % TWO_TO_THE_64
  }

  lemma SeqAfterOne(counter: u64, i: nat)
    ensures SeqAfter(counter, i + 1) == SeqAfter(SeqAfter(counter, 1), i)
  {
    if counter + 1 == TWO_TO_THE_64 {
      assert counter + (i + 1) == TWO_TO_THE_64 + i;
    }
  }

  /** The tracker entry made when row is flushed. */
  function Outgoing(s: Outbox, row: MessageRow, peer: string, from: string, now: i64, msgId: u64): PendingEntry {
    PendingEntry(peer, from, row.content, now, msgId, row.expiresAt.GetOr(I64_MAX), s.seqCounter, 0)
  }

  function FlushedOne(s: Outbox, row: MessageRow, peer: string, from: string, now: i64, msgId: u64): Outbox
    requires s.nextRequest < TWO_TO_THE_64
  {
    var entry := Outgoing(s, row, peer, from, now, msgId);
    s.(tracker := s.tracker[s.nextRequest := entry],
       table := WithRow(s.table, Stored(s.nextRequest, peer, entry, now)),
       counters := s.counters.(sent := s.counters.sent + 1),
       messages := MarkedDelivered(s.messages, row.id),
       seqCounter := SeqAfter(s.seqCounter, 1),
       nextRequest := s.nextRequest + 1)
  }

  function FlushedAll(s: Outbox, rows: seq<MessageRow>, peer: string, from: string, now: i64, msgIds: seq<u64>): Outbox
    requires |msgIds| == |rows| && s.nextRequest + |rows| <= TWO_TO_THE_64
    decreases |rows|
  {
    if rows == [] then s
    else FlushedAll(FlushedOne(s, rows[0], peer, from, now, msgIds[0]), rows[1..], peer, from, now, msgIds[1..])
  }

  /** One request put on the wire under a request id. */
  datatype Transmission = Transmission(id: u64, peer: string, request: ChatRequest)

  /** The request for a tracker entry; a retry carries the time of the retry. */
  function RequestOf(e: PendingEntry, ts: i64): ChatRequest {
    ChatRequest(e.from, e.content, ts, e.msgId, e.ttl, e.seqNo, None)
  }

  /** What a flush puts on the wire, in order. */
  function FlushSent(s: Outbox, rows: seq<MessageRow>, peer: string, from: string, now: i64, msgIds: seq<u64>)
    : seq<Transmission>
    requires |msgIds| == |rows| && s.nextRequest + |rows| <= TWO_TO_THE_64
  {
    seq(|rows|, i requires 0 <= i < |rows| =>
      Transmission(s.nextRequest + i, peer,
        ChatRequest(from, rows[i].content, now, msgIds[i], rows[i].expiresAt.GetOr(I64_MAX),
                    SeqAfter(s.seqCounter, i), None)))
  }

  lemma FlushSentCons(s: Outbox, rows: seq<MessageRow>, peer: string, from: string, now: i64, msgIds: seq<u64>)
    requires |msgIds| == |rows| > 0 && s.nextRequest + |rows| <= TWO_TO_THE_64
    ensures FlushSent(s, rows, peer, from, now, msgIds)
         == [Transmission(s.nextRequest, peer, RequestOf(Outgoing(s, rows[0], peer, from, now, msgIds[0]), now))]
          + FlushSent(FlushedOne(s, rows[0], peer, from, now, msgIds[0]), rows[1..], peer, from, now, msgIds[1..])
  {
    var rest := FlushSent(FlushedOne(s, rows[0], peer, from, now, msgIds[0]), rows[1..], peer, from, now, msgIds[1..]);
    forall i | 0 <= i < |rest|
      ensures rest[i] == FlushSent(s, rows, peer, from, now, msgIds)[i + 1]
    {
      SeqAfterOne(s.seqCounter, i);
    }
  }

  /** A flush is its first row and then the rest. */
  lemma FlushFirst(s: Outbox, rows: seq<MessageRow>, peer: string, from: string, now: i64, msgIds: seq<u64>,
                   s': Outbox, sent: seq<Transmission>, first: Transmission)
    requires |msgIds| == |rows| > 0 && s.nextRequest + |rows| <= TWO_TO_THE_64
    requires s' == FlushedOne(s, rows[0], peer, from, now, msgIds[0])
    requires first == Transmission(s.nextRequest, peer,
      RequestOf(Outgoing(s, rows[0], peer, from, now, msgIds[0]), now))
    ensures FlushedAll(s, rows, peer, from, now, msgIds) == FlushedAll(s', rows[1..], peer, from, now, msgIds[1..])
    ensures sent + FlushSent(s, rows, peer, from, now, msgIds)
         == sent + [first] + FlushSent(s', rows[1..], peer, from, now, msgIds[1..])
  {
    FlushSentCons(s, rows, peer, from, now, msgIds);
  }

  function Acknowledged(s: Outbox, id: u64): Outbox {
    if id in s.tracker then
      s.(tracker := s.tracker - {id},
         table := WithoutRow(s.table, id),
         counters := s.counters.(acked := s.counters.acked + 1))
    else s
  }

  function Retried(s: Outbox, id: u64, peer: string, now: i64): Outbox
    requires id in s.tracker && s.nextRequest < TWO_TO_THE_64
  {
    var entry := Failed(s.tracker[id]);
    s.(tracker := (s.tracker - {id})[s.nextRequest := entry],
       table := WithRow(WithoutRow(s.table, id), Stored(s.nextRequest, peer, entry, now)),
       counters := s.counters.(retried := s.counters.retried + 1),
       nextRequest := s.nextRequest + 1)
  }

  function HandedOff(s: Outbox, id: u64, peer: string): Outbox
    requires id in s.tracker
  {
    var entry := s.tracker[id];
    Enqueued(s.(tracker := s.tracker - {id},
                table := WithoutRow(s.table, id),
                counters := s.counters.(failed := s.counters.failed + 1, queued := s.counters.queued + 1)),
             peer, entry.content, Some(entry.ttl))
  }

  predicate MayRetry(e: PendingEntry) {
    Failed(e).retries <= MAX_RETRIES
  }

  /** Every tenth tick purges expired and delivered rows. */
  function Ticked(s: Outbox, now: i64): Outbox {
    var purge := (s.ticks + 1) % 10 == 0;
    s.(ticks := s.ticks + 1,
       messages := if purge then Filter(Filter(s.messages, NotPurgedAt(now)), NotDelivered()) else s.messages,
       table := if purge then LiveRows(s.table, now) else s.table)
  }

  /** What a killed process leaves behind once the stale rows are cleared. */
  function Rebooted(s: Outbox, firstRequest: nat): Outbox {
    Outbox(map[], s.messages, s.lastId, map[], ZERO, 1, firstRequest, 0)
  }

  /** The tracker entry a stored row comes back as. */
  function Retracked(row: StoredPending): PendingEntry {
    PendingEntry(row.peer, row.from, row.content, row.ts, row.msgId, row.ttl, row.seqNo, 0)
  }

  function RecoveredOne(s: Outbox, row: StoredPending, now: i64): Outbox
    requires s.nextRequest < TWO_TO_THE_64
  {
    if row.ttl < now then s
    else
      s.(tracker := s.tracker[s.nextRequest := Retracked(row)],
         table := WithRow(s.table, row.(requestId := s.nextRequest, createdAt := now)),
         counters := s.counters.(sent := s.counters.sent + 1),
         nextRequest := s.nextRequest + 1)
  }

  function RecoveredAll(s: Outbox, rows: seq<StoredPending>, now: i64): Outbox
    requires s.nextRequest + |rows| <= TWO_TO_THE_64
    decreases |rows|
  {
    if rows == [] then s else RecoveredAll(RecoveredOne(s, rows[0], now), rows[1..], now)
  }

  /** What recovery puts on the wire for one stored row, and for all of them in turn. */
  function ResentOne(next: u64, row: StoredPending, now: i64): seq<Transmission> {
    if row.ttl < now then [] else [Transmission(next, row.peer, RequestOf(Retracked(row), row.ts))]
  }

  function ResentAll(next: nat, rows: seq<StoredPending>, now: i64): seq<Transmission>
    requires next + |rows| <= TWO_TO_THE_64
    decreases |rows|
  {
    if rows == [] then []
    else if rows[0].ttl < now then ResentAll(next, rows[1..], now)
    else
      [Transmission(next, rows[0].peer, RequestOf(Retracked(rows[0]), rows[0].ts))]
      + ResentAll(next + 1, rows[1..], now)
  }

  /** What recovery sends is what it sends for the first row and then the rest. */
  lemma ResentFirst(next: nat, rows: seq<StoredPending>, now: i64, one: seq<Transmission>, next': nat)
    requires rows != [] && next + |rows| <= TWO_TO_THE_64
    requires one == ResentOne(next, rows[0], now) && next' == next + |one|
    ensures next' + |rows[1..]| <= TWO_TO_THE_64
    ensures ResentAll(next, rows, now) == one + ResentAll(next', rows[1..], now)
  {
    if rows[0].ttl < now {
      assert one == [] && next' == next;
    } else {
      assert next' == next + 1;
    }
  }

  /** What the environment may do: fresh request ids are left, a failure names the
      peer its request went to, and a query answers in creation order. */
  ghost predicate Enabled(s: Outbox, e: Event) {
    match e
    case Connected(peer, _, now, msgIds) =>
      |msgIds| == |PendingFor(s.messages, peer, now)| && s.nextRequest + |msgIds| <= TWO_TO_THE_64
    case SendFailed(id, peer, _) =>
      id in s.tracker ==> s.tracker[id].peer == peer && s.nextRequest < TWO_TO_THE_64
    case Restart(_, firstRequest, keys) =>
      IsLoadOrder(s.table, keys) && firstRequest + |keys| <= TWO_TO_THE_64
    case _ => true
  }

  /** Request ids in use were issued by this process. */
  ghost predicate IdsIssued(s: Outbox) {
    forall id :: id in s.tracker ==> id < s.nextRequest
  }

  ghost function Step(s: Outbox, e: Event): Outbox
    requires Enabled(s, e)
  {
    match e
    case Enqueue(peer, content, expiresAt) => Enqueued(s, peer, content, expiresAt)
    case Connected(peer, from, now, msgIds) =>
      FlushedAll(s, PendingFor(s.messages, peer, now), peer, from, now, msgIds)
    case AckReceived(id) => Acknowledged(s, id)
    case SendFailed(id, peer, now) =>
      if id !in s.tracker then s
      else if MayRetry(s.tracker[id]) then Retried(s, id, peer, now)
      else HandedOff(s, id, peer)
    case Tick(now) => Ticked(s, now)
    case Restart(now, firstRequest, keys) => RecoveredAll(Rebooted(s, firstRequest), LoadedAll(s.table, keys), now)
  }
  /** What the step for e puts on the wire, in order. */
  ghost function Sent(s: Outbox, e: Event): seq<Transmission>
    requires Enabled(s, e)
  {
    match e
    case Connected(peer, from, now, msgIds) => FlushSent(s, PendingFor(s.messages, peer, now), peer, from, now, msgIds)
    case SendFailed(id, peer, now) =>
      if id in s.tracker && MayRetry(s.tracker[id]) then
        [Transmission(s.nextRequest, peer, RequestOf(s.tracker[id], now))]
      else
        []
    case Restart(now, firstRequest, keys) => ResentAll(firstRequest, LoadedAll(s.table, keys), now)
    case _ => []
  }
}
