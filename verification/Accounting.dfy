/** What the diagnostic counters of one daemon lifetime add up to. */
module Accounting {
  import opened Base
  import opened MessageQueue
  import opened Reliability
  import opened Outbox
  import opened Ledger

  function SumLog(log: seq<PendingEntry>): nat {
    if log == [] then 0 else SumLog(log[..|log| - 1]) + log[|log| - 1].retries
  }

  ghost predicate WithinBudget(m: InFlightMap, log: seq<PendingEntry>) {
    && (forall id :: id in m ==> m[id].retries <= MAX_RETRIES)
    && (forall e :: e in log ==> e.retries <= MAX_RETRIES)
  }

  /** Every send is acked, handed off or still in flight; every retransmission belongs
      to one of them; nobody exceeds the retry budget. */
  ghost predicate Balanced(s: Outbox, log: seq<PendingEntry>) {
    && s.counters.sent == s.counters.acked + s.counters.failed + |s.tracker|
    && s.counters.acked == |log|
    && s.counters.queued == s.counters.failed
    && s.counters.retried == MAX_RETRIES * s.counters.failed + SumRetries(s.tracker) + SumLog(log)
    && WithinBudget(s.tracker, log)
  }

  lemma {:induction false} SumLogBound(log: seq<PendingEntry>)
    requires forall e :: e in log ==> e.retries <= MAX_RETRIES
    ensures SumLog(log) <= MAX_RETRIES * |log|
  {
    if log != [] {
      SumLogBound(log[..|log| - 1]);
    }
  }

  /** Retransmissions never exceed three per message sent. */
  lemma BalancedIsBounded(s: Outbox, log: seq<PendingEntry>)
    requires Balanced(s, log)
    ensures s.counters.sent + s.counters.retried <= (1 + MAX_RETRIES) * s.counters.sent
  {
    SumBound(s.tracker);
    SumLogBound(log);
  }

  lemma {:induction false} FlushAllBalances(
    s: Outbox, log: seq<PendingEntry>, rows: seq<MessageRow>, peer: string, from: string, now: i64, msgIds: seq<u64>)
    requires Balanced(s, log) && IdsIssued(s)
    requires |msgIds| == |rows| && s.nextRequest + |rows| <= TWO_TO_THE_64
    ensures Balanced(FlushedAll(s, rows, peer, from, now, msgIds), log)
    decreases |rows|
  {
    if rows != [] {
      SumWith(s.tracker, s.nextRequest, Outgoing(s, rows[0], peer, from, now, msgIds[0]));
      FlushAllBalances(FlushedOne(s, rows[0], peer, from, now, msgIds[0]), log, rows[1..], peer, from, now,
        msgIds[1..]);
    }
  }

  lemma RemovalSize(m: InFlightMap, id: u64)
    requires id in m
    ensures |m - {id}| == |m| - 1
  {
    assert m.Keys - {id} == (m - {id}).Keys;
  }

  lemma AckBalances(s: Outbox, log: seq<PendingEntry>, id: u64)
    requires Balanced(s, log) && id in s.tracker
    ensures Balanced(Acknowledged(s, id), log + [s.tracker[id]])
  {
    SumWithout(s.tracker, id);
    RemovalSize(s.tracker, id);
    assert (log + [s.tracker[id]])[..|log|] == log;
  }

  lemma RetryBalances(s: Outbox, log: seq<PendingEntry>, id: u64, peer: string, now: i64)
    requires Balanced(s, log) && IdsIssued(s)
    requires id in s.tracker && s.nextRequest < TWO_TO_THE_64 && MayRetry(s.tracker[id])
    ensures Balanced(Retried(s, id, peer, now), log)
  {
    SumWithout(s.tracker, id);
    RemovalSize(s.tracker, id);
    SumWith(s.tracker - {id}, s.nextRequest, Failed(s.tracker[id]));
  }

  lemma HandOffBalances(s: Outbox, log: seq<PendingEntry>, id: u64, peer: string)
    requires Balanced(s, log) && id in s.tracker && !MayRetry(s.tracker[id])
    ensures Balanced(HandedOff(s, id, peer), log)
  {
    SumWithout(s.tracker, id);
    RemovalSize(s.tracker, id);
  }

  lemma {:induction false} RecoveryBalances(s: Outbox, log: seq<PendingEntry>, rows: seq<StoredPending>, now: i64)
    requires Balanced(s, log) && IdsIssued(s)
    requires s.nextRequest + |rows| <= TWO_TO_THE_64
    ensures Balanced(RecoveredAll(s, rows, now), log)
    decreases |rows|
  {
    if rows != [] {
      var s' := RecoveredOne(s, rows[0], now);
      if now <= rows[0].ttl {
        SumWith(s.tracker, s.nextRequest, s'.tracker[s.nextRequest]);
      }
      RecoveryBalances(s', log, rows[1..], now);
    }
  }

  lemma StepBalances(s: Outbox, l: Ledger, e: Event)
    requires Enabled(s, e) && Balanced(s, l.ackLog) && IdsIssued(s)
    ensures Balanced(Step(s, e), Follow(s, l, e).ackLog)
  {
    match e
    case Enqueue(_, _, _) =>
    case Connected(peer, from, now, msgIds) =>
      FlushAllBalances(s, l.ackLog, PendingFor(s.messages, peer, now), peer, from, now, msgIds);
    case AckReceived(id) =>
      if id in s.tracker {
        AckBalances(s, l.ackLog, id);
      }
    case SendFailed(id, peer, now) =>
      if id in s.tracker {
        if MayRetry(s.tracker[id]) {
          RetryBalances(s, l.ackLog, id, peer, now);
        } else {
          HandOffBalances(s, l.ackLog, id, peer);
        }
      }
    case Tick(now) =>
    case Restart(now, firstRequest, keys) =>
      RecoveryBalances(Rebooted(s, firstRequest), [], LoadedAll(s.table, keys), now);
  }
}
