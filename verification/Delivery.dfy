/** The whole-run theorems about the sending half. */
module Delivery {
  import opened Base
  import opened MessageQueue
  import opened Outbox
  import opened Ledger
  import opened LedgerMoves
  import opened Conservation
  import opened Recovery
  import Persistence
  import Accounting

  lemma PendingRows(s: Outbox, peer: string, now: i64)
    requires RowsOrdered(s)
    ensures forall r :: r in PendingFor(s.messages, peer, now) ==>
      r in s.messages && !r.delivered && r.peer == peer && Alive(r.expiresAt, now)
    ensures IdsIncrease(PendingFor(s.messages, peer, now))
  {
    FilterMembers(s.messages, WaitingFor(peer, now));
    FilterKeepsOrder(s.messages, WaitingFor(peer, now));
  }

  lemma NoneLostStays(msgs: seq<Logical>, mv: Move)
    requires NoneLost(msgs) && !mv.Lose?
    ensures NoneLost(Moved(msgs, mv))
  {
    MovedMembers(msgs, mv);
  }

  lemma RetryConserves(s: Outbox, l: Ledger, e: Event)
    requires e.SendFailed? && Enabled(s, e) && Conserved(s, l)
    requires e.id in s.tracker && MayRetry(s.tracker[e.id])
    ensures Conserved(Step(s, e), Follow(s, l, e))
  {
    RetryKeeps(s, l.msgs, l.clock, e.id, e.peer, e.now);
    NoneLostStays(l.msgs, Resend(e.id, s.nextRequest));
  }

  lemma HandOffConserves(s: Outbox, l: Ledger, e: Event)
    requires e.SendFailed? && Enabled(s, e) && Conserved(s, l)
    requires e.id in s.tracker && !MayRetry(s.tracker[e.id])
    ensures Conserved(Step(s, e), Follow(s, l, e))
  {
    HandOffKeeps(s, l.msgs, l.clock, e.id, e.peer);
    NoneLostStays(l.msgs, Return(e.id, s.lastId + 1));
  }

  lemma PurgeConserves(s: Outbox, msgs: seq<Logical>, clock: int, now: i64, mv: Move, s': Outbox)
    requires Kept(s, msgs, clock) && NoneLost(msgs)
    requires mv == Purge(ExpiredRows(s.messages, now), now)
    requires s'.messages == Filter(Filter(s.messages, NotPurgedAt(now)), NotDelivered())
    requires s'.lastId == s.lastId && s'.tracker == s.tracker && s'.nextRequest == s.nextRequest
    ensures Kept(s', Moved(msgs, mv), Later(clock, now)) && NoneLost(Moved(msgs, mv))
  {
    PurgeKeeps(s, msgs, clock, now, s');
    NoneLostStays(msgs, mv);
  }

  lemma PurgingTick(s: Outbox, l: Ledger, now: i64)
    requires (s.ticks + 1) % 10 == 0
    ensures var s', l' := Ticked(s, now), Follow(s, l, Tick(now));
      && s'.messages == Filter(Filter(s.messages, NotPurgedAt(now)), NotDelivered())
      && s'.lastId == s.lastId && s'.tracker == s.tracker && s'.nextRequest == s.nextRequest
      && l'.msgs == Moved(l.msgs, Purge(ExpiredRows(s.messages, now), now)) && l'.clock == Later(l.clock, now)
  {
  }

  lemma PurgingTickConserves(s: Outbox, l: Ledger, now: i64, s': Outbox, l': Ledger)
    requires Conserved(s, l) && (s.ticks + 1) % 10 == 0
    requires s' == Ticked(s, now) && l' == Follow(s, l, Tick(now))
    ensures Conserved(s', l')
  {
    PurgingTick(s, l, now);
    PurgeConserves(s, l.msgs, l.clock, now, Purge(ExpiredRows(s.messages, now), now), s');
  }

  lemma QuietTickConserves(s: Outbox, l: Ledger, now: i64)
    requires Conserved(s, l) && (s.ticks + 1) % 10 != 0
    ensures Conserved(Ticked(s, now), Follow(s, l, Tick(now)))
  {
    var s' := Ticked(s, now);
    assert s'.messages == s.messages && s'.tracker == s.tracker;
  }

  lemma StepConserves(s: Outbox, l: Ledger, e: Event)
    requires Enabled(s, e) && Conserved(s, l) && Persisted(s, l.purged) && l.purged <= l.clock
    ensures Conserved(Step(s, e), Follow(s, l, e))
  {
    match e
    case Enqueue(peer, content, expiresAt) => EnqueueKeeps(s, l.msgs, l.clock, peer, content, expiresAt);
    case Connected(peer, from, now, msgIds) =>
      PendingRows(s, peer, now);
      FlushAllKeeps(s, l.msgs, l.clock, PendingFor(s.messages, peer, now), peer, from, now, msgIds);
    case AckReceived(id) =>
      if id in s.tracker {
        AckKeeps(s, l.msgs, l.clock, id);
        NoneLostStays(l.msgs, Settle(id));
      }
    case SendFailed(id, _, _) =>
      if id in s.tracker {
        if MayRetry(s.tracker[id]) {
          RetryConserves(s, l, e);
        } else {
          HandOffConserves(s, l, e);
        }
      }
    case Tick(now) =>
      if (s.ticks + 1) % 10 == 0 {
        PurgingTickConserves(s, l, now, Step(s, e), Follow(s, l, e));
      } else {
        QuietTickConserves(s, l, now);
      }
    case Restart(_, _, _) => RestartKeeps(s, l, e);
  }

  /** Each message ever pushed is in exactly one place and the tables hold it there
      unchanged; memory and the pending table agree; and the counters balance. */
  ghost predicate Healthy(s: Outbox, l: Ledger) {
    && Conserved(s, l)
    && Persisted(s, l.purged) && l.purged <= l.clock
    && Accounting.Balanced(s, l.ackLog)
  }

  lemma ClocksAdvance(s: Outbox, l: Ledger, e: Event)
    requires Enabled(s, e) && l.purged <= l.clock
    ensures Follow(s, l, e).purged <= Follow(s, l, e).clock
  {
  }

  lemma StepIsHealthy(s: Outbox, l: Ledger, e: Event)
    requires Enabled(s, e) && Healthy(s, l)
    ensures Healthy(Step(s, e), Follow(s, l, e))
  {
    StepConserves(s, l, e);
    Persistence.StepPersists(s, l, e);
    Accounting.StepBalances(s, l, e);
    ClocksAdvance(s, l, e);
  }

  /** Every reachable state is healthy. */
  lemma {:induction false} EveryRunConserves(events: seq<Event>)
    ensures Healthy(Run(events).0, Run(events).1)
  {
    if events != [] {
      var before, e := events[..|events| - 1], events[|events| - 1];
      EveryRunConserves(before);
      if Enabled(Run(before).0, e) {
        StepIsHealthy(Run(before).0, Run(before).1, e);
      }
    }
  }

  /** At most four transmissions per message sent, in every reachable state. */
  lemma RetryBudget(events: seq<Event>)
    ensures var c := Run(events).0.counters; c.sent + c.retried <= 4 * c.sent
  {
    EveryRunConserves(events);
    Accounting.BalancedIsBounded(Run(events).0, Run(events).1.ackLog);
  }

  // ── The purge schedule ──────────────────────────────────────────────

  /** How often the timer has fired since the process started. */
  ghost function TicksSinceStart(events: seq<Event>): nat {
    if events == [] then 0
    else
      var before, e := events[..|events| - 1], events[|events| - 1];
      if !Enabled(Run(before).0, e) then TicksSinceStart(before)
      else if e.Restart? then 0
      else TicksSinceStart(before) + if e.Tick? then 1 else 0
  }

  lemma {:induction false} FlushKeepsTicks(
    s: Outbox, rows: seq<MessageRow>, peer: string, from: string, now: i64, msgIds: seq<u64>)
    requires |msgIds| == |rows| && s.nextRequest + |rows| <= TWO_TO_THE_64
    ensures FlushedAll(s, rows, peer, from, now, msgIds).ticks == s.ticks
    decreases |rows|
  {
    if rows != [] {
      FlushKeepsTicks(FlushedOne(s, rows[0], peer, from, now, msgIds[0]), rows[1..], peer, from, now, msgIds[1..]);
    }
  }

  lemma {:induction false} RecoveryKeepsTicks(s: Outbox, rows: seq<StoredPending>, now: i64)
    requires s.nextRequest + |rows| <= TWO_TO_THE_64
    ensures RecoveredAll(s, rows, now).ticks == s.ticks
    decreases |rows|
  {
    if rows != [] {
      RecoveryKeepsTicks(RecoveredOne(s, rows[0], now), rows[1..], now);
    }
  }

  lemma StepTicks(s: Outbox, e: Event)
    requires Enabled(s, e)
    ensures Step(s, e).ticks == if e.Restart? then 0 else s.ticks + if e.Tick? then 1 else 0
  {
    match e
    case Connected(peer, from, now, msgIds) =>
      FlushKeepsTicks(s, PendingFor(s.messages, peer, now), peer, from, now, msgIds);
    case Restart(now, firstRequest, keys) =>
      RecoveryKeepsTicks(Rebooted(s, firstRequest), LoadedAll(s.table, keys), now);
    case _ =>
  }

  lemma {:induction false} TicksAreCounted(events: seq<Event>)
    ensures Run(events).0.ticks == TicksSinceStart(events)
  {
    if events != [] {
      var before, e := events[..|events| - 1], events[|events| - 1];
      TicksAreCounted(before);
      if Enabled(Run(before).0, e) {
        StepTicks(Run(before).0, e);
      }
    }
  }

  /** What a purge leaves. */
  ghost predicate Purged(s: Outbox, s': Outbox, now: i64) {
    && (forall r :: r in s'.messages <==>
          r in s.messages && !r.delivered && (r.expiresAt.None? || now < r.expiresAt.value))
    && (forall k :: k in s'.table <==> k in s.table && now <= s.table[k].ttl)
    && (forall k :: k in s'.table ==> s'.table[k] == s.table[k])
  }

  lemma LiveRowsArePurged(s: Outbox, s': Outbox, now: i64)
    requires s'.messages == Filter(Filter(s.messages, NotPurgedAt(now)), NotDelivered())
    requires s'.table == LiveRows(s.table, now)
    ensures Purged(s, s', now)
  {
    PurgedMembers(s.messages, now);
  }

  lemma TickPurges(s: Outbox, now: i64, s': Outbox)
    requires s' == Ticked(s, now)
    ensures if (s.ticks + 1) % 10 == 0 then Purged(s, s', now) else s'.messages == s.messages && s'.table == s.table
    ensures s'.tracker == s.tracker
  {
    if (s.ticks + 1) % 10 == 0 {
      LiveRowsArePurged(s, s', now);
    }
  }

  /** Over every run: the tenth, twentieth, ... firing since the process started leaves of
      the queue exactly the rows that are neither delivered nor expired, and of the pending
      table exactly those whose ttl has not passed; any other firing changes neither. */
  lemma PurgeSchedule(events: seq<Event>, now: i64)
    ensures var s := Run(events).0;
      var s' := Step(s, Tick(now));
      && s'.tracker == s.tracker
      && if (TicksSinceStart(events) + 1) % 10 == 0 then Purged(s, s', now)
         else s'.messages == s.messages && s'.table == s.table
  {
    TicksAreCounted(events);
    TickPurges(Run(events).0, now, Step(Run(events).0, Tick(now)));
  }

  // ── Conservation in numbers ─────────────────────────────────────────

  function CountQueued(msgs: seq<Logical>): nat {
    if msgs == [] then 0 else CountQueued(msgs[1..]) + if msgs[0].place.Queued? then 1 else 0
  }

  function CountInFlight(msgs: seq<Logical>): nat {
    if msgs == [] then 0 else CountInFlight(msgs[1..]) + if msgs[0].place.InFlight? then 1 else 0
  }

  function CountAcked(msgs: seq<Logical>): nat {
    if msgs == [] then 0 else CountAcked(msgs[1..]) + if msgs[0].place.Acked? then 1 else 0
  }

  function CountDropped(msgs: seq<Logical>): nat {
    if msgs == [] then 0 else CountDropped(msgs[1..]) + if msgs[0].place.Dropped? then 1 else 0
  }

  lemma {:induction false} QueuedAreCounted(msgs: seq<Logical>)
    requires Apart(msgs)
    ensures CountQueued(msgs) == |RowsIn(msgs)|
  {
    if msgs != [] {
      var first, rest := msgs[0], msgs[1..];
      QueuedAreCounted(rest);
      assert forall m :: m in msgs <==> m == first || m in rest;
      if first.place.Queued? {
        assert RowsIn(msgs) == RowsIn(rest) + {first.place.row};
      } else {
        assert RowsIn(msgs) == RowsIn(rest);
      }
    }
  }

  lemma {:induction false} InFlightAreCounted(msgs: seq<Logical>)
    requires Apart(msgs)
    ensures CountInFlight(msgs) == |RequestsIn(msgs)|
  {
    if msgs != [] {
      var first, rest := msgs[0], msgs[1..];
      InFlightAreCounted(rest);
      assert forall m :: m in msgs <==> m == first || m in rest;
      if first.place.InFlight? {
        assert RequestsIn(msgs) == RequestsIn(rest) + {first.place.id};
      } else {
        assert RequestsIn(msgs) == RequestsIn(rest);
      }
    }
  }

  lemma {:induction false} EachIsCountedOnce(msgs: seq<Logical>)
    requires NoneLost(msgs)
    ensures |msgs| == CountQueued(msgs) + CountInFlight(msgs) + CountAcked(msgs) + CountDropped(msgs)
  {
    if msgs != [] {
      EachIsCountedOnce(msgs[1..]);
      assert msgs[0] in msgs;
    }
  }

  /** Pushes = undelivered rows + tracker entries + ACKed + expired, in every state. */
  lemma NothingLostNothingDuplicated(events: seq<Event>)
    ensures var (s, l) := Run(events);
      |l.msgs| == |Waitings(s.messages)| + |s.tracker| + CountAcked(l.msgs) + CountDropped(l.msgs)
  {
    EveryRunConserves(events);
    QueuedAreCounted(Run(events).1.msgs);
    InFlightAreCounted(Run(events).1.msgs);
    EachIsCountedOnce(Run(events).1.msgs);
    assert |Run(events).0.tracker.Keys| == |Run(events).0.tracker|;
  }

  // ── Identity and expiry ─────────────────────────────────────────────

  ghost predicate Departs(p: Place, p': Place) {
    p' == p || (p.Queued? && p'.InFlight?)
  }

  ghost predicate Regains(p: Place, p': Place) {
    p' == p || (p.Lost? && p'.InFlight? && p'.wire == p.wire)
  }

  lemma {:induction false} DepartedAllShape(
    msgs: seq<Logical>, s: Outbox, rows: seq<MessageRow>, peer: string, from: string, now: i64, msgIds: seq<u64>,
      i: nat)
    requires |msgIds| == |rows| && s.nextRequest + |rows| <= TWO_TO_THE_64 && i < |msgs|
    ensures var msgs' := DepartedAll(msgs, s, rows, peer, from, now, msgIds);
      |msgs'| == |msgs| && msgs'[i].origin == msgs[i].origin && Departs(msgs[i].place, msgs'[i].place)
      && (msgs'[i].place.InFlight? <==>
            msgs[i].place.InFlight? || exists r :: r in rows && msgs[i].place == Queued(r.id))
    decreases |rows|
  {
    if rows != [] {
      var mv := Depart(rows[0].id, s.nextRequest, Wire(from, msgIds[0], s.seqCounter, now));
      DepartedAllShape(Moved(msgs, mv), FlushedOne(s, rows[0], peer, from, now, msgIds[0]), rows[1..],
                       peer, from, now, msgIds[1..], i);
      assert forall r :: r in rows <==> r == rows[0] || r in rows[1..];
    }
  }

  lemma {:induction false} RegainedAllShape(msgs: seq<Logical>, next: nat, rows: seq<StoredPending>, now: i64, i: nat)
    requires next + |rows| <= TWO_TO_THE_64 && i < |msgs|
    ensures var msgs' := RegainedAll(msgs, next, rows, now);
      |msgs'| == |msgs| && msgs'[i].origin == msgs[i].origin && Regains(msgs[i].place, msgs'[i].place)
    decreases |rows|
  {
    if rows != [] {
      if rows[0].ttl < now {
        RegainedAllShape(msgs, next, rows[1..], now, i);
      } else {
        RegainedAllShape(Moved(msgs, Regain(rows[0].requestId, next)), next + 1, rows[1..], now, i);
      }
    }
  }

  /** How a place may change in one step. */
  ghost predicate Evolves(p: Place, p': Place, e: Event) {
    match p
    case Queued(_) => p' == p || (p'.InFlight? && e.Connected?) || (p'.Dropped? && e.Tick?)
    case InFlight(_, wire) =>
      || (p'.InFlight? && p'.wire == wire)
      || (p'.Acked? && e.AckReceived?) || (p'.Queued? && e.SendFailed?) || (p'.Dropped? && e.Restart?)
    case Acked => p' == p
    case Dropped(_) => p' == p
    case Lost(_, _) => false
  }

  /** No step forgets a message or edits it.  While a message is in flight, through
      retry and crash recovery, its sender, msg_id, seq and ts stay what they were when
      it was flushed; ACKed and dropped messages never come back. */
  lemma IdentityIsStable(s: Outbox, l: Ledger, e: Event, i: nat)
    requires Enabled(s, e) && NoneLost(l.msgs) && i < |l.msgs|
    ensures var msgs' := Follow(s, l, e).msgs;
      i < |msgs'| && msgs'[i].origin == l.msgs[i].origin && Evolves(l.msgs[i].place, msgs'[i].place, e)
  {
    assert l.msgs[i] in l.msgs;
    match e
    case Enqueue(_, _, _) =>
    case Connected(peer, from, now, msgIds) =>
      DepartedAllShape(l.msgs, s, PendingFor(s.messages, peer, now), peer, from, now, msgIds, i);
    case AckReceived(id) =>
    case SendFailed(_, _, _) =>
    case Tick(now) =>
    case Restart(now, firstRequest, keys) =>
      RegainedAllShape(Moved(l.msgs, Lose), firstRequest, LoadedAll(s.table, keys), now, i);
  }

  /** A connection flushes a queued message if it is addressed to the peer and its
      original expiry is ahead, and only then if it has an expiry: after a full cycle of
      flush, exhausted retries and hand-off the deadline is still the original one. */
  lemma FlushRespectsOriginalExpiry(s: Outbox, l: Ledger, e: Event, i: nat)
    requires e.Connected? && Enabled(s, e) && Conserved(s, l)
    requires i < |l.msgs| && l.msgs[i].place.Queued?
    ensures i < |Follow(s, l, e).msgs|
    ensures var o, flushed := l.msgs[i].origin, Follow(s, l, e).msgs[i].place.InFlight?;
      && (o.peer == e.peer && e.now < o.Expiry() ==> flushed)
      && (flushed ==> o.peer == e.peer && (o.expiresAt.None? || e.now < o.expiresAt.value))
  {
    var rows := PendingFor(s.messages, e.peer, e.now);
    DepartedAllShape(l.msgs, s, rows, e.peer, e.from, e.now, e.msgIds, i);
    FilterMembers(s.messages, WaitingFor(e.peer, e.now));
    IdsAreUnique(s);
    assert l.msgs[i] in l.msgs && l.msgs[i].place.row in Waitings(s.messages);
    var r :| r in s.messages && !r.delivered && l.msgs[i].place == Queued(r.id);
    assert RowHolds(r, l.msgs[i].origin);
    assert forall r' :: r' in rows && r'.id == r.id ==> r' == r;
    assert r in rows <==> WaitingFor(e.peer, e.now)(r);
  }
}
