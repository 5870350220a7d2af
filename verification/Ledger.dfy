/** Where every message ever pushed is.  The ledger gives each push a logical
    number and follows it through flush, retry, hand-off, purge and crash; the
    theorems tie it to the daemon's tables in every reachable state. */
module Ledger {
  import opened Base
  import opened MessageQueue
  import opened Reliability
  import opened Outbox

  datatype Origin = Origin(peer: string, content: Text, expiresAt: Option<i64>) {
    function Expiry(): i64 {
      expiresAt.GetOr(I64_MAX)
    }
  }

  /** What identifies a message on the wire from flush to hand-off. */
  datatype Wire = Wire(from: string, msgId: u64, seqNo: u64, ts: i64)

  datatype Place =
    | Queued(row: nat)
    | InFlight(id: u64, wire: Wire)
    | Lost(id: u64, wire: Wire)      // in flight when the process died, not yet looked at
    | Acked
    | Dropped(at: int)

  datatype Logical = Logical(origin: Origin, place: Place)

  /** clock is the latest time at which a purge or a recovery has looked for expired
      messages, purged the latest time of a purge; ackLog holds the entries ACKed in this
      process lifetime. */
  datatype Ledger = Ledger(msgs: seq<Logical>, clock: int, purged: int, ackLog: seq<PendingEntry>)

  const BLANK := Ledger([], -TWO_TO_THE_63, -TWO_TO_THE_63, [])

  datatype Move =
    | Depart(row: nat, id: u64, wire: Wire)
    | Settle(id: u64)
    | Resend(id: u64, newId: u64)
    | Return(id: u64, row: nat)
    | Purge(rows: set<nat>, at: int)
    | Lose
    | Regain(id: u64, newId: u64)
    | Bury(at: int)

  function Relocated(p: Place, m: Move): Place {
    match m
    case Depart(row, id, wire) => if p == Queued(row) then InFlight(id, wire) else p
    case Settle(id) => if p.InFlight? && p.id == id then Acked else p
    case Resend(id, newId) => if p.InFlight? && p.id == id then InFlight(newId, p.wire) else p
    case Return(id, row) => if p.InFlight? && p.id == id then Queued(row) else p
    case Purge(rows, at) => if p.Queued? && p.row in rows then Dropped(at) else p
    case Lose => if p.InFlight? then Lost(p.id, p.wire) else p
    case Regain(id, newId) => if p.Lost? && p.id == id then InFlight(newId, p.wire) else p
    case Bury(at) => if p.Lost? then Dropped(at) else p
  }

  function Moved(msgs: seq<Logical>, m: Move): seq<Logical> {
    seq(|msgs|, i requires 0 <= i < |msgs| => msgs[i].(place := Relocated(msgs[i].place, m)))
  }

  function Later(a: int, b: int): int {
    if a < b then b else a
  }

  function DepartedAll(msgs: seq<Logical>, s: Outbox, rows: seq<MessageRow>, peer: string, from: string, now: i64,
      msgIds: seq<u64>)
    : seq<Logical>
    requires |msgIds| == |rows| && s.nextRequest + |rows| <= TWO_TO_THE_64
    decreases |rows|
  {
    if rows == [] then msgs
    else
      DepartedAll(Moved(msgs, Depart(rows[0].id, s.nextRequest, Wire(from, msgIds[0], s.seqCounter, now))),
                  FlushedOne(s, rows[0], peer, from, now, msgIds[0]), rows[1..], peer, from, now, msgIds[1..])
  }

  function RegainedAll(msgs: seq<Logical>, next: nat, rows: seq<StoredPending>, now: i64): seq<Logical>
    requires next + |rows| <= TWO_TO_THE_64
    decreases |rows|
  {
    if rows == [] then msgs
    else if rows[0].ttl < now then RegainedAll(msgs, next, rows[1..], now)
    else RegainedAll(Moved(msgs, Regain(rows[0].requestId, next)), next + 1, rows[1..], now)
  }

  function ExpiredRows(rows: seq<MessageRow>, now: i64): set<nat> {
    set r | r in rows && !NotPurgedAt(now)(r) :: r.id
  }

  ghost function Follow(s: Outbox, l: Ledger, e: Event): Ledger
    requires Enabled(s, e)
  {
    match e
    case Enqueue(peer, content, expiresAt) =>
      l.(msgs := l.msgs + [Logical(Origin(peer, content, expiresAt), Queued(s.lastId + 1))])
    case Connected(peer, from, now, msgIds) =>
      l.(msgs := DepartedAll(l.msgs, s, PendingFor(s.messages, peer, now), peer, from, now, msgIds))
    case AckReceived(id) =>
      if id in s.tracker then l.(msgs := Moved(l.msgs, Settle(id)), ackLog := l.ackLog + [s.tracker[id]]) else l
    case SendFailed(id, _, _) =>
      if id !in s.tracker then l
      else if MayRetry(s.tracker[id]) then l.(msgs := Moved(l.msgs, Resend(id, s.nextRequest)))
      else l.(msgs := Moved(l.msgs, Return(id, s.lastId + 1)))
    case Tick(now) =>
      if (s.ticks + 1) % 10 == 0 then
        l.(msgs := Moved(l.msgs, Purge(ExpiredRows(s.messages, now), now)), clock := Later(l.clock, now),
          purged := Later(l.purged, now))
      else l
    case Restart(now, firstRequest, keys) =>
      var clock := Later(l.clock, now);
      Ledger(Moved(RegainedAll(Moved(l.msgs, Lose), firstRequest, LoadedAll(s.table, keys), now), Bury(clock)),
             clock, l.purged, [])
  }

  // ── Runs ────────────────────────────────────────────────────────────

  /** Events the environment cannot produce in a state are skipped. */
  ghost function Next(c: (Outbox, Ledger), e: Event): (Outbox, Ledger) {
    if Enabled(c.0, e) then (Step(c.0, e), Follow(c.0, c.1, e)) else c
  }

  ghost function Run(events: seq<Event>): (Outbox, Ledger) {
    if events == [] then (FRESH, BLANK) else Next(Run(events[..|events| - 1]), events[|events| - 1])
  }

  // ── Invariants ──────────────────────────────────────────────────────

  function Waitings(rows: seq<MessageRow>): set<nat> {
    set r | r in rows && !r.delivered :: r.id
  }

  function RowsIn(msgs: seq<Logical>): set<nat> {
    set m | m in msgs && m.place.Queued? :: m.place.row
  }

  function RequestsIn(msgs: seq<Logical>): set<u64> {
    set m | m in msgs && m.place.InFlight? :: m.place.id
  }

  function LostIn(msgs: seq<Logical>): set<u64> {
    set m | m in msgs && m.place.Lost? :: m.place.id
  }

  /** A queue row holds the message: same peer, content and expiry; a message that
      never expires comes back from a hand-off with the largest timestamp instead. */
  ghost predicate RowHolds(r: MessageRow, o: Origin) {
    r.peer == o.peer && r.content == o.content
    && (r.expiresAt == o.expiresAt || (o.expiresAt.None? && r.expiresAt == Some(I64_MAX)))
  }

  ghost predicate EntryHolds(e: PendingEntry, o: Origin, w: Wire) {
    e.peer == o.peer && e.content == o.content && e.ttl == o.Expiry()
    && w == Wire(e.from, e.msgId, e.seqNo, e.ts)
  }

  /** A message in flight has a tracker entry that holds it. */
  ghost predicate Tracked(m: Logical, tracker: InFlightMap) {
    m.place.InFlight? ==> m.place.id in tracker && EntryHolds(tracker[m.place.id], m.origin, m.place.wire)
  }

  /** Two messages never share a place that holds one message only. */
  ghost predicate Apart(msgs: seq<Logical>) {
    forall i, j :: 0 <= i < j < |msgs| ==>
      && !(msgs[i].place.Queued? && msgs[j].place.Queued? && msgs[i].place.row == msgs[j].place.row)
      && !(msgs[i].place.InFlight? && msgs[j].place.InFlight? && msgs[i].place.id == msgs[j].place.id)
      && !(msgs[i].place.Lost? && msgs[j].place.Lost? && msgs[i].place.id == msgs[j].place.id)
  }

  ghost predicate IdsIncrease(rows: seq<MessageRow>) {
    forall i, j :: 0 <= i < j < |rows| ==> rows[i].id < rows[j].id
  }

  ghost predicate RowsOrdered(s: Outbox) {
    && IdsIncrease(s.messages)
    && (forall r :: r in s.messages ==> r.id <= s.lastId)
  }

  /** The queue half: the undelivered rows are the queued messages, one for one. */
  ghost predicate QueueKept(s: Outbox, msgs: seq<Logical>) {
    && RowsOrdered(s)
    && Waitings(s.messages) == RowsIn(msgs)
    && (forall r, m :: r in s.messages && m in msgs && m.place == Queued(r.id) ==> RowHolds(r, m.origin))
  }

  /** The flight half: the tracker entries are the messages in flight, one for one. */
  ghost predicate FlightKept(s: Outbox, msgs: seq<Logical>) {
    && IdsIssued(s)
    && s.tracker.Keys == RequestsIn(msgs)
    && (forall m :: m in msgs ==> Tracked(m, s.tracker))
  }

  /** A dropped message had expired by the time it was dropped. */
  ghost predicate DropsJustified(msgs: seq<Logical>, clock: int) {
    forall m :: m in msgs && m.place.Dropped? ==> m.origin.Expiry() <= m.place.at <= clock
  }

  ghost predicate NoneLost(msgs: seq<Logical>) {
    forall m :: m in msgs ==> !m.place.Lost?
  }

  ghost predicate Kept(s: Outbox, msgs: seq<Logical>, clock: int) {
    && Apart(msgs)
    && QueueKept(s, msgs)
    && FlightKept(s, msgs)
    && DropsJustified(msgs, clock)
  }

  /** Every message ever pushed is in exactly one place, and the places are real. */
  ghost predicate Conserved(s: Outbox, l: Ledger) {
    Kept(s, l.msgs, l.clock) && NoneLost(l.msgs)
  }

  /** A row of the pending table describes the same message as a tracker entry; after
      a recovery the entry counts retries from 0 while the row keeps the old count. */
  ghost predicate RowAgrees(row: StoredPending, e: PendingEntry) {
    row.peer == e.peer && row.from == e.from && row.content == e.content && row.ts == e.ts
    && row.msgId == e.msgId && row.ttl == e.ttl && row.seqNo == e.seqNo && e.retries <= row.retries
  }

  /** Memory and table agree: every row has its entry, and an entry without a row has
      a ttl that some purge has already passed. */
  ghost predicate PersistedIn(tracker: InFlightMap, table: PendingTable, purged: int) {
    && (forall key :: key in table ==> AsU64(key) in tracker && RowAgrees(Loaded(key, table[key]), tracker[AsU64(key)]))
    && (forall id :: id in tracker ==> AsI64(id) in table || tracker[id].ttl < purged)
  }

  ghost predicate Persisted(s: Outbox, purged: int) {
    PersistedIn(s.tracker, s.table, purged)
  }
}
