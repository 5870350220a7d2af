/** Crash and restart: what was in flight comes back from the pending table. */
module Recovery {
  import opened Base
  import opened MessageQueue
  import opened Reliability
  import opened Outbox
  import opened Ledger
  import opened LedgerMoves
  import opened Conservation

  ghost predicate Pending(id: u64, rows: seq<StoredPending>) {
    exists i :: 0 <= i < |rows| && rows[i].requestId == id
  }

  /** A message lost in the crash was held by the old tracker, and either its row is
      still to be looked at or it has expired. */
  ghost predicate Accounted(m: Logical, old': InFlightMap, rows: seq<StoredPending>, clock: int) {
    m.place.Lost? ==>
      && m.place.id in old' && EntryHolds(old'[m.place.id], m.origin, m.place.wire)
      && (Pending(m.place.id, rows) || m.origin.Expiry() < clock)
  }

  ghost predicate RowsOf(rows: seq<StoredPending>, old': InFlightMap) {
    && (forall i :: 0 <= i < |rows| ==> rows[i].requestId in old' && RowAgrees(rows[i], old'[rows[i].requestId]))
    && (forall i, j :: 0 <= i < j < |rows| ==> rows[i].requestId != rows[j].requestId)
  }

  ghost predicate Recovering(msgs: seq<Logical>, old': InFlightMap, rows: seq<StoredPending>, clock: int) {
    && RowsOf(rows, old')
    && (forall m :: m in msgs ==> Accounted(m, old', rows, clock))
    && (forall i :: 0 <= i < |rows| ==> rows[i].requestId in LostIn(msgs))
  }

  lemma PendingAfterFirst(id: u64, rows: seq<StoredPending>)
    requires rows != [] && id != rows[0].requestId
    ensures Pending(id, rows) ==> Pending(id, rows[1..])
  {
    if Pending(id, rows) {
      var i :| 0 <= i < |rows| && rows[i].requestId == id;
      assert rows[1..][i - 1] == rows[i];
    }
  }

  lemma SkipExpired(msgs: seq<Logical>, old': InFlightMap, rows: seq<StoredPending>, clock: int, now: i64)
    requires Recovering(msgs, old', rows, clock) && rows != [] && rows[0].ttl < now <= clock
    ensures Recovering(msgs, old', rows[1..], clock)
  {
    forall m | m in msgs
      ensures Accounted(m, old', rows[1..], clock)
    {
      if m.place.Lost? && m.place.id != rows[0].requestId {
        PendingAfterFirst(m.place.id, rows);
      }
    }
  }

  lemma RegainKeepsAccount(msgs: seq<Logical>, old': InFlightMap, rows: seq<StoredPending>, clock: int, newId: u64)
    requires Recovering(msgs, old', rows, clock) && rows != [] && Apart(msgs) && newId !in RequestsIn(msgs)
    ensures Recovering(Moved(msgs, Regain(rows[0].requestId, newId)), old', rows[1..], clock)
  {
    var mv := Regain(rows[0].requestId, newId);
    RegainMoves(msgs, rows[0].requestId, newId);
    MovedMembers(msgs, mv);
    forall m' | m' in Moved(msgs, mv)
      ensures Accounted(m', old', rows[1..], clock)
    {
      var m :| m in msgs && m' == After(m, mv);
      if m'.place.Lost? {
        PendingAfterFirst(m.place.id, rows);
      }
    }
  }

  lemma RegainTracks(s: Outbox, msgs: seq<Logical>, old': InFlightMap, rows: seq<StoredPending>, clock: int, now: i64)
    requires FlightKept(s, msgs) && Recovering(msgs, old', rows, clock)
    requires rows != [] && now <= rows[0].ttl && s.nextRequest < TWO_TO_THE_64
    ensures var s' := RecoveredOne(s, rows[0], now);
      forall m :: m in Moved(msgs, Regain(rows[0].requestId, s.nextRequest)) ==> Tracked(m, s'.tracker)
  {
    MovedMembers(msgs, Regain(rows[0].requestId, s.nextRequest));
  }

  lemma RecoverOneKeeps(s: Outbox, msgs: seq<Logical>, old': InFlightMap, rows: seq<StoredPending>, clock: int,
      now: i64)
    requires Kept(s, msgs, clock) && Recovering(msgs, old', rows, clock)
    requires rows != [] && now <= rows[0].ttl && s.nextRequest < TWO_TO_THE_64
    ensures Kept(RecoveredOne(s, rows[0], now), Moved(msgs, Regain(rows[0].requestId, s.nextRequest)), clock)
  {
    var mv := Regain(rows[0].requestId, s.nextRequest);
    RegainMoves(msgs, rows[0].requestId, s.nextRequest);
    QueueStays(s, msgs, mv, RecoveredOne(s, rows[0], now));
    RegainTracks(s, msgs, old', rows, clock, now);
    DropsStay(msgs, mv, clock);
  }

  lemma {:induction false} RecoverAllKeeps(s: Outbox, msgs: seq<Logical>, old': InFlightMap, rows: seq<StoredPending>,
      clock: int, now: i64)
    requires Kept(s, msgs, clock) && Recovering(msgs, old', rows, clock)
    requires now <= clock && s.nextRequest + |rows| <= TWO_TO_THE_64
    ensures var msgs' := RegainedAll(msgs, s.nextRequest, rows, now);
      Kept(RecoveredAll(s, rows, now), msgs', clock) && Recovering(msgs', old', [], clock)
    decreases |rows|
  {
    if rows != [] {
      if rows[0].ttl < now {
        SkipExpired(msgs, old', rows, clock, now);
        RecoverAllKeeps(s, msgs, old', rows[1..], clock, now);
      } else {
        RecoverOneKeeps(s, msgs, old', rows, clock, now);
        RegainKeepsAccount(msgs, old', rows, clock, s.nextRequest);
        RecoverAllKeeps(RecoveredOne(s, rows[0], now), Moved(msgs, Regain(rows[0].requestId, s.nextRequest)),
                        old', rows[1..], clock, now);
      }
    }
  }

  lemma RebootKeeps(s: Outbox, l: Ledger, clock: int, first: nat)
    requires Conserved(s, l) && l.clock <= clock
    ensures Kept(Rebooted(s, first), Moved(l.msgs, Lose), clock)
  {
    LoseMoves(l.msgs);
    MovedMembers(l.msgs, Lose);
    QueueStays(s, l.msgs, Lose, Rebooted(s, first));
  }

  /** Loading gives distinct request ids, each tracked before the crash. */
  lemma LoadedRowsWereTracked(s: Outbox, purged: int, keys: seq<i64>)
    requires Persisted(s, purged) && IsLoadOrder(s.table, keys)
    ensures RowsOf(LoadedAll(s.table, keys), s.tracker)
  {
    var rows := LoadedAll(s.table, keys);
    forall i | 0 <= i < |rows|
      ensures rows[i].requestId in s.tracker && RowAgrees(rows[i], s.tracker[rows[i].requestId])
    {
      assert keys[i] in s.table;
    }
    forall i, j | 0 <= i < j < |rows|
      ensures rows[i].requestId != rows[j].requestId
    {
      CastsRoundTrip(0, keys[i]);
      CastsRoundTrip(0, keys[j]);
    }
  }

  lemma StoredIsPending(table: PendingTable, keys: seq<i64>, id: u64)
    requires IsLoadOrder(table, keys) && AsI64(id) in table
    ensures Pending(id, LoadedAll(table, keys))
  {
    var i :| 0 <= i < |keys| && keys[i] == AsI64(id);
    CastsRoundTrip(id, 0);
    assert LoadedAll(table, keys)[i].requestId == id;
  }

  lemma LostIsAccounted(s: Outbox, m: Logical, purged: int, clock: int, keys: seq<i64>)
    requires Tracked(m, s.tracker) && !m.place.Lost?
    requires Persisted(s, purged) && purged <= clock && IsLoadOrder(s.table, keys)
    ensures Accounted(After(m, Lose), s.tracker, LoadedAll(s.table, keys), clock)
  {
    if m.place.InFlight? && AsI64(m.place.id) in s.table {
      StoredIsPending(s.table, keys, m.place.id);
    }
  }

  /** The stored rows account for everything that was in flight. */
  lemma RebootAccounts(s: Outbox, l: Ledger, clock: int, keys: seq<i64>)
    requires Conserved(s, l) && Persisted(s, l.purged) && l.purged <= clock
    requires IsLoadOrder(s.table, keys)
    ensures Recovering(Moved(l.msgs, Lose), s.tracker, LoadedAll(s.table, keys), clock)
  {
    LoseMoves(l.msgs);
    LoadedRowsWereTracked(s, l.purged, keys);
    var lost, rows := Moved(l.msgs, Lose), LoadedAll(s.table, keys);
    forall i | 0 <= i < |lost|
      ensures Accounted(lost[i], s.tracker, rows, clock)
    {
      assert l.msgs[i] in l.msgs;
      LostIsAccounted(s, l.msgs[i], l.purged, clock, keys);
    }
  }

  lemma BuryIsJustified(msgs: seq<Logical>, old': InFlightMap, clock: int)
    requires DropsJustified(msgs, clock) && forall m :: m in msgs ==> Accounted(m, old', [], clock)
    ensures DropsJustified(Moved(msgs, Bury(clock)), clock)
  {
    MovedMembers(msgs, Bury(clock));
  }

  lemma BuryKeepsTracks(msgs: seq<Logical>, tracker: InFlightMap, clock: int)
    requires forall m :: m in msgs ==> Tracked(m, tracker)
    ensures forall m :: m in Moved(msgs, Bury(clock)) ==> Tracked(m, tracker)
  {
    MovedMembers(msgs, Bury(clock));
  }

  lemma BuryKeeps(s: Outbox, msgs: seq<Logical>, old': InFlightMap, clock: int)
    requires Kept(s, msgs, clock) && Recovering(msgs, old', [], clock)
    ensures Kept(s, Moved(msgs, Bury(clock)), clock) && NoneLost(Moved(msgs, Bury(clock)))
  {
    BuryMoves(msgs, clock);
    QueueStays(s, msgs, Bury(clock), s);
    BuryIsJustified(msgs, old', clock);
    BuryKeepsTracks(msgs, s.tracker, clock);
  }

  lemma RestartKeeps(s: Outbox, l: Ledger, e: Event)
    requires e.Restart? && Enabled(s, e)
    requires Conserved(s, l) && Persisted(s, l.purged) && l.purged <= l.clock
    ensures Conserved(Step(s, e), Follow(s, l, e))
  {
    var clock := Later(l.clock, e.now);
    var rows := LoadedAll(s.table, e.keys);
    var base, msgs := Rebooted(s, e.firstRequest), Moved(l.msgs, Lose);
    RebootKeeps(s, l, clock, e.firstRequest);
    RebootAccounts(s, l, clock, e.keys);
    RecoverAllKeeps(base, msgs, s.tracker, rows, clock, e.now);
    BuryKeeps(RecoveredAll(base, rows, e.now), RegainedAll(msgs, e.firstRequest, rows, e.now), s.tracker, clock);
  }
}
