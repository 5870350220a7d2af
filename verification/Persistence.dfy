/** Memory and the pending table describe the same messages in every state. */
module Persistence {
  import opened Base
  import opened MessageQueue
  import opened Reliability
  import opened Outbox
  import opened Ledger

  lemma Written(s: Outbox, purged: int, peer: string, e: PendingEntry, row: StoredPending, s': Outbox)
    requires Persisted(s, purged) && IdsIssued(s) && s.nextRequest < TWO_TO_THE_64
    requires row.requestId == s.nextRequest && RowAgrees(row, e)
    requires s'.tracker == s.tracker[s.nextRequest := e] && s'.table == WithRow(s.table, row)
    ensures Persisted(s', purged)
  {
    StoreThenLoad(s.table, row);
    forall key | key in s'.table
      ensures AsU64(key) in s'.tracker && RowAgrees(Loaded(key, s'.table[key]), s'.tracker[AsU64(key)])
    {
      CastsRoundTrip(s.nextRequest, key);
    }
    forall id | id in s'.tracker
      ensures AsI64(id) in s'.table || s'.tracker[id].ttl < purged
    {
      CastsRoundTrip(id, 0);
    }
  }

  lemma Erased(s: Outbox, purged: int, id: u64, s': Outbox)
    requires Persisted(s, purged)
    requires s'.tracker == s.tracker - {id} && s'.table == WithoutRow(s.table, id)
    ensures Persisted(s', purged)
  {
    forall key | key in s'.table
      ensures AsU64(key) in s'.tracker && s'.tracker[AsU64(key)] == s.tracker[AsU64(key)]
        && s'.table[key] == s.table[key]
    {
      CastsRoundTrip(id, key);
    }
    forall other | other in s'.tracker
      ensures AsI64(other) in s.table ==> AsI64(other) in s'.table
    {
      CastsRoundTrip(other, 0);
      CastsRoundTrip(id, 0);
    }
  }

  lemma {:induction false} FlushAllPersists(
    s: Outbox, purged: int, rows: seq<MessageRow>, peer: string, from: string, now: i64, msgIds: seq<u64>)
    requires Persisted(s, purged) && IdsIssued(s)
    requires |msgIds| == |rows| && s.nextRequest + |rows| <= TWO_TO_THE_64
    ensures Persisted(FlushedAll(s, rows, peer, from, now, msgIds), purged)
    decreases |rows|
  {
    if rows != [] {
      var s' := FlushedOne(s, rows[0], peer, from, now, msgIds[0]);
      var e := Outgoing(s, rows[0], peer, from, now, msgIds[0]);
      Written(s, purged, peer, e, Stored(s.nextRequest, peer, e, now), s');
      FlushAllPersists(s', purged, rows[1..], peer, from, now, msgIds[1..]);
    }
  }

  lemma RetryPersists(s: Outbox, purged: int, id: u64, now: i64)
    requires Persisted(s, purged) && IdsIssued(s) && s.nextRequest < TWO_TO_THE_64
    requires id in s.tracker
    ensures Persisted(Retried(s, id, s.tracker[id].peer, now), purged)
  {
    var e := Failed(s.tracker[id]);
    var erased := s.(tracker := s.tracker - {id}, table := WithoutRow(s.table, id));
    Erased(s, purged, id, erased);
    Written(erased, purged, e.peer, e, Stored(s.nextRequest, e.peer, e, now), Retried(s, id, e.peer, now));
  }

  lemma PurgePersists(tracker: InFlightMap, table: PendingTable, purged: int, now: i64)
    requires PersistedIn(tracker, table, purged)
    ensures PersistedIn(tracker, LiveRows(table, now), Later(purged, now))
  {
    forall id | id in tracker
      ensures AsI64(id) in LiveRows(table, now) || tracker[id].ttl < Later(purged, now)
    {
      var key := AsI64(id);
      CastsRoundTrip(id, 0);
      assert key in table ==> RowAgrees(Loaded(key, table[key]), tracker[AsU64(key)]);
    }
  }

  lemma {:induction false} RecoveryPersists(s: Outbox, purged: int, rows: seq<StoredPending>, now: i64)
    requires Persisted(s, purged) && IdsIssued(s)
    requires s.nextRequest + |rows| <= TWO_TO_THE_64
    ensures Persisted(RecoveredAll(s, rows, now), purged)
    decreases |rows|
  {
    if rows != [] {
      var s' := RecoveredOne(s, rows[0], now);
      if now <= rows[0].ttl {
        var row := rows[0].(requestId := s.nextRequest, createdAt := now);
        Written(s, purged, row.peer, s'.tracker[s.nextRequest], row, s');
      }
      RecoveryPersists(s', purged, rows[1..], now);
    }
  }

  lemma FailurePersists(s: Outbox, purged: int, e: Event)
    requires e.SendFailed? && Enabled(s, e) && Persisted(s, purged) && IdsIssued(s)
    ensures Persisted(Step(s, e), purged)
  {
    if e.id in s.tracker {
      if MayRetry(s.tracker[e.id]) {
        RetryPersists(s, purged, e.id, e.now);
      } else {
        Erased(s, purged, e.id, HandedOff(s, e.id, e.peer));
      }
    }
  }

  lemma PurgingTickPersists(s: Outbox, purged: int, now: i64)
    requires Persisted(s, purged) && (s.ticks + 1) % 10 == 0
    ensures Persisted(Ticked(s, now), Later(purged, now))
  {
    PurgePersists(s.tracker, s.table, purged, now);
  }

  lemma QuietTickPersists(s: Outbox, purged: int, now: i64)
    requires Persisted(s, purged) && (s.ticks + 1) % 10 != 0
    ensures Persisted(Ticked(s, now), purged)
  {
    assert Ticked(s, now).tracker == s.tracker && Ticked(s, now).table == s.table;
  }

  lemma RestartPersists(s: Outbox, l: Ledger, e: Event)
    requires e.Restart? && Enabled(s, e)
    ensures Persisted(Step(s, e), Follow(s, l, e).purged)
  {
    RecoveryPersists(Rebooted(s, e.firstRequest), l.purged, LoadedAll(s.table, e.keys), e.now);
  }

  lemma StepPersists(s: Outbox, l: Ledger, e: Event)
    requires Enabled(s, e) && Persisted(s, l.purged) && IdsIssued(s)
    ensures Persisted(Step(s, e), Follow(s, l, e).purged)
  {
    match e
    case Enqueue(_, _, _) =>
    case Connected(peer, from, now, msgIds) =>
      FlushAllPersists(s, l.purged, PendingFor(s.messages, peer, now), peer, from, now, msgIds);
    case AckReceived(id) =>
      if id in s.tracker {
        Erased(s, l.purged, id, Acknowledged(s, id));
      }
    case SendFailed(_, _, _) => FailurePersists(s, l.purged, e);
    case Tick(now) =>
      if (s.ticks + 1) % 10 == 0 {
        PurgingTickPersists(s, l.purged, now);
      } else {
        QuietTickPersists(s, l.purged, now);
      }
    case Restart(_, _, _) => RestartPersists(s, l, e);
  }

  // ── Recovery in closed form ─────────────────────────────────────────

  function Unexpired(now: i64): StoredPending -> bool {
    (row: StoredPending) => now <= row.ttl
  }

  ghost predicate RetrackedAt(after: InFlightMap, first: nat, i: nat, live: seq<StoredPending>)
    requires i < |live|
  {
    first + i in after && after[first + i] == Retracked(live[i])
  }

  /** Compared with before, after has one new entry per row, numbered from first on. */
  ghost predicate Retracks(before: InFlightMap, after: InFlightMap, first: nat, live: seq<StoredPending>) {
    && (forall i: nat :: i < |live| ==> RetrackedAt(after, first, i, live))
    && (forall id :: id in after ==> id in before || first <= id < first + |live|)
    && (forall id :: id in before ==> id in after && after[id] == before[id])
  }

  lemma RetracksFirst(before: InFlightMap, after: InFlightMap, first: u64, row: StoredPending, rest: seq<StoredPending>)
    requires first !in before
    requires Retracks(before[first := Retracked(row)], after, first + 1, rest)
    ensures Retracks(before, after, first, [row] + rest)
  {
    var mid, live := before[first := Retracked(row)], [row] + rest;
    assert first in mid && forall id :: id in before ==> id in mid && mid[id] == before[id];
    forall i: nat | i < |live|
      ensures RetrackedAt(after, first, i, live)
    {
      assert i > 0 ==> RetrackedAt(after, first + 1, i - 1, rest);
    }
  }

  /** Recovery re-tracks each stored unexpired row exactly once, in load order, under
      consecutive fresh ids, and nothing else. */
  lemma {:induction false} RecoveryRetracksEachOnce(s: Outbox, rows: seq<StoredPending>, now: i64)
    requires s.nextRequest + |rows| <= TWO_TO_THE_64 && IdsIssued(s)
    ensures var live, s' := Filter(rows, Unexpired(now)), RecoveredAll(s, rows, now);
      s'.nextRequest == s.nextRequest + |live| && Retracks(s.tracker, s'.tracker, s.nextRequest, live)
    decreases |rows|
  {
    if rows != [] {
      var mid := RecoveredOne(s, rows[0], now);
      RecoveryRetracksEachOnce(mid, rows[1..], now);
      var rest := Filter(rows[1..], Unexpired(now));
      assert Filter(rows, Unexpired(now)) == if now <= rows[0].ttl then [rows[0]] + rest else rest;
      if now <= rows[0].ttl {
        RetracksFirst(s.tracker, RecoveredAll(s, rows, now).tracker, s.nextRequest, rows[0], rest);
      }
    }
  }
}
