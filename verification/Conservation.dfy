/** Every step of the sending half keeps every message. */
module Conservation {
  import opened Base
  import opened MessageQueue
  import opened Reliability
  import opened Outbox
  import opened Ledger
  import opened LedgerMoves

  lemma EnqueueKeeps(s: Outbox, msgs: seq<Logical>, clock: int, peer: string, content: Text, expiresAt: Option<i64>)
    requires Kept(s, msgs, clock)
    ensures Kept(Enqueued(s, peer, content, expiresAt),
                 msgs + [Logical(Origin(peer, content, expiresAt), Queued(s.lastId + 1))], clock)
  {
    var s' := Enqueued(s, peer, content, expiresAt);
    var row := Pushed(s.lastId + 1, peer, content, expiresAt);
    var added := Logical(Origin(peer, content, expiresAt), Queued(s.lastId + 1));
    var msgs' := msgs + [added];
    assert forall m :: m in msgs' <==> m in msgs || m == added;
    assert forall r :: r in s'.messages <==> r in s.messages || r == row;
    RowsAreOld(s, msgs);
    assert Waitings(s'.messages) == Waitings(s.messages) + {row.id};
    assert RowsIn(msgs') == RowsIn(msgs) + {row.id};
    assert RequestsIn(msgs') == RequestsIn(msgs);
  }

  lemma RowsAreOld(s: Outbox, msgs: seq<Logical>)
    requires QueueKept(s, msgs)
    ensures forall m :: m in msgs && m.place.Queued? ==> m.place.row in Waitings(s.messages) && m.place.row <= s.lastId
  {
    forall m | m in msgs && m.place.Queued?
      ensures m.place.row in Waitings(s.messages) && m.place.row <= s.lastId
    {
      assert m.place.row in RowsIn(msgs);
    }
  }

  lemma MarkedMembers(rows: seq<MessageRow>, id: nat)
    ensures forall r :: r in MarkedDelivered(rows, id) <==>
      exists r0 :: r0 in rows && r == if r0.id == id then r0.(delivered := true) else r0
  {
    var marked := MarkedDelivered(rows, id);
    forall r | r in marked
      ensures exists r0 :: r0 in rows && r == if r0.id == id then r0.(delivered := true) else r0
    {
      var i :| 0 <= i < |marked| && marked[i] == r;
      assert rows[i] in rows;
    }
    forall r0 | r0 in rows
      ensures (if r0.id == id then r0.(delivered := true) else r0) in marked
    {
      var i :| 0 <= i < |rows| && rows[i] == r0;
      assert marked[i] == if r0.id == id then r0.(delivered := true) else r0;
    }
  }

  lemma MarkLeavesQueue(s: Outbox, id: nat, s': Outbox)
    requires RowsOrdered(s)
    requires s'.messages == MarkedDelivered(s.messages, id) && s'.lastId == s.lastId
    ensures RowsOrdered(s')
    ensures Waitings(s'.messages) == Waitings(s.messages) - {id}
    ensures forall r :: r in s'.messages && !r.delivered ==> r in s.messages
  {
    MarkedMembers(s.messages, id);
  }

  lemma DropsStay(msgs: seq<Logical>, mv: Move, clock: int)
    requires DropsJustified(msgs, clock) && !mv.Purge? && !mv.Bury?
    ensures DropsJustified(Moved(msgs, mv), clock)
  {
    MovedMembers(msgs, mv);
  }

  lemma FlushKeepsQueue(s: Outbox, msgs: seq<Logical>, row: MessageRow, mv: Move, s': Outbox)
    requires Apart(msgs) && QueueKept(s, msgs)
    requires row in s.messages && !row.delivered
    requires mv.Depart? && mv.row == row.id && mv.id !in RequestsIn(msgs)
    requires s'.messages == MarkedDelivered(s.messages, row.id) && s'.lastId == s.lastId
    ensures QueueKept(s', Moved(msgs, mv))
  {
    var msgs' := Moved(msgs, mv);
    assert row.id in Waitings(s.messages);
    DepartMoves(msgs, row.id, mv.id, mv.wire);
    MarkLeavesQueue(s, row.id, s');
    MarkedMembers(s.messages, row.id);
    MovedMembers(msgs, mv);
    forall r, m' | r in s'.messages && m' in msgs' && m'.place == Queued(r.id)
      ensures RowHolds(r, m'.origin)
    {
      var m :| m in msgs && m' == After(m, mv);
      assert m.place == Queued(r.id) && r.id != row.id;
      assert r in s.messages;
    }
  }

  lemma FlushKeepsFlight(s: Outbox, msgs: seq<Logical>, row: MessageRow, peer: string, from: string, now: i64,
      msgId: u64)
    requires Apart(msgs) && QueueKept(s, msgs) && FlightKept(s, msgs)
    requires row in s.messages && !row.delivered && row.peer == peer
    requires s.nextRequest < TWO_TO_THE_64
    ensures FlightKept(FlushedOne(s, row, peer, from, now, msgId),
                       Moved(msgs, Depart(row.id, s.nextRequest, Wire(from, msgId, s.seqCounter, now))))
  {
    var s' := FlushedOne(s, row, peer, from, now, msgId);
    var mv := Depart(row.id, s.nextRequest, Wire(from, msgId, s.seqCounter, now));
    var msgs' := Moved(msgs, mv);
    assert row.id in Waitings(s.messages);
    DepartMoves(msgs, row.id, s.nextRequest, mv.wire);
    MovedMembers(msgs, mv);
    forall m' | m' in msgs'
      ensures Tracked(m', s'.tracker)
    {
      var m :| m in msgs && m' == After(m, mv);
      if m.place == Queued(row.id) {
        assert RowHolds(row, m.origin);
      } else if m.place.InFlight? {
        assert m.place.id < s.nextRequest;
      }
    }
  }

  lemma FlushOneKeeps(s: Outbox, msgs: seq<Logical>, clock: int, row: MessageRow, peer: string, from: string, now: i64,
      msgId: u64)
    requires Kept(s, msgs, clock)
    requires row in s.messages && !row.delivered && row.peer == peer
    requires s.nextRequest < TWO_TO_THE_64
    ensures Kept(FlushedOne(s, row, peer, from, now, msgId),
                 Moved(msgs, Depart(row.id, s.nextRequest, Wire(from, msgId, s.seqCounter, now))), clock)
  {
    var mv := Depart(row.id, s.nextRequest, Wire(from, msgId, s.seqCounter, now));
    assert row.id in Waitings(s.messages);
    DepartMoves(msgs, row.id, s.nextRequest, mv.wire);
    FlushKeepsQueue(s, msgs, row, mv, FlushedOne(s, row, peer, from, now, msgId));
    FlushKeepsFlight(s, msgs, row, peer, from, now, msgId);
    DropsStay(msgs, mv, clock);
  }

  lemma {:induction false} FlushAllKeeps(
    s: Outbox, msgs: seq<Logical>, clock: int, rows: seq<MessageRow>, peer: string, from: string, now: i64,
      msgIds: seq<u64>)
    requires Kept(s, msgs, clock) && NoneLost(msgs)
    requires forall r :: r in rows ==> r in s.messages && !r.delivered && r.peer == peer
    requires forall i, j :: 0 <= i < j < |rows| ==> rows[i].id < rows[j].id
    requires |msgIds| == |rows| && s.nextRequest + |rows| <= TWO_TO_THE_64
    ensures Kept(FlushedAll(s, rows, peer, from, now, msgIds), DepartedAll(msgs, s, rows, peer, from, now, msgIds),
      clock)
    ensures NoneLost(DepartedAll(msgs, s, rows, peer, from, now, msgIds))
    decreases |rows|
  {
    if rows != [] {
      var mv := Depart(rows[0].id, s.nextRequest, Wire(from, msgIds[0], s.seqCounter, now));
      FlushOneKeeps(s, msgs, clock, rows[0], peer, from, now, msgIds[0]);
      MovedMembers(msgs, mv);
      MarkedMembers(s.messages, rows[0].id);
      FlushAllKeeps(FlushedOne(s, rows[0], peer, from, now, msgIds[0]), Moved(msgs, mv), clock,
                    rows[1..], peer, from, now, msgIds[1..]);
    }
  }

  /** Nothing but id leaves the tracker. */
  ghost predicate OnlyLeaves(id: u64, before: InFlightMap, after: InFlightMap) {
    forall other :: other in before && other != id ==> other in after && after[other] == before[other]
  }

  lemma TakenOut(msgs: seq<Logical>, mv: Move, before: InFlightMap, after: InFlightMap)
    requires mv.Settle? || mv.Return?
    requires forall m :: m in msgs ==> Tracked(m, before)
    requires OnlyLeaves(mv.id, before, after)
    ensures forall m :: m in Moved(msgs, mv) ==> Tracked(m, after)
  {
    MovedMembers(msgs, mv);
  }

  lemma Replaced(msgs: seq<Logical>, id: u64, newId: u64, before: InFlightMap, after: InFlightMap)
    requires forall m :: m in msgs ==> Tracked(m, before)
    requires OnlyLeaves(id, before, after)
    requires id in before && newId in after && after[newId] == Failed(before[id])
    ensures forall m :: m in Moved(msgs, Resend(id, newId)) ==> Tracked(m, after)
  {
    MovedMembers(msgs, Resend(id, newId));
  }

  /** A move that leaves queued messages alone leaves the queue half alone. */
  lemma QueueStays(s: Outbox, msgs: seq<Logical>, mv: Move, s': Outbox)
    requires QueueKept(s, msgs)
    requires mv.Settle? || mv.Resend? || mv.Lose? || mv.Regain? || mv.Bury?
    requires s'.messages == s.messages && s'.lastId == s.lastId
    ensures QueueKept(s', Moved(msgs, mv))
  {
    MovedMembers(msgs, mv);
    assert RowsIn(Moved(msgs, mv)) == RowsIn(msgs);
  }

  lemma AckKeeps(s: Outbox, msgs: seq<Logical>, clock: int, id: u64)
    requires Kept(s, msgs, clock) && id in s.tracker
    ensures Kept(Acknowledged(s, id), Moved(msgs, Settle(id)), clock)
  {
    SettleMoves(msgs, id);
    DropsStay(msgs, Settle(id), clock);
    QueueStays(s, msgs, Settle(id), Acknowledged(s, id));
    TakenOut(msgs, Settle(id), s.tracker, s.tracker - {id});
  }

  lemma RetryKeeps(s: Outbox, msgs: seq<Logical>, clock: int, id: u64, peer: string, now: i64)
    requires Kept(s, msgs, clock) && id in s.tracker && s.nextRequest < TWO_TO_THE_64
    ensures Kept(Retried(s, id, peer, now), Moved(msgs, Resend(id, s.nextRequest)), clock)
  {
    var mv := Resend(id, s.nextRequest);
    ResendMoves(msgs, id, s.nextRequest);
    DropsStay(msgs, mv, clock);
    QueueStays(s, msgs, mv, Retried(s, id, peer, now));
    Replaced(msgs, id, s.nextRequest, s.tracker, Retried(s, id, peer, now).tracker);
  }

  /** A hand-off gives the queue the row that holds the returned message. */
  lemma ReturnKeepsQueue(s: Outbox, msgs: seq<Logical>, mv: Move, row: MessageRow, s': Outbox)
    requires Apart(msgs) && QueueKept(s, msgs)
    requires mv.Return? && mv.row == row.id == s.lastId + 1 && mv.id in RequestsIn(msgs)
    requires !row.delivered && s'.messages == s.messages + [row] && s'.lastId == row.id
    requires forall m :: m in msgs && m.place.InFlight? && m.place.id == mv.id ==> RowHolds(row, m.origin)
    ensures QueueKept(s', Moved(msgs, mv))
  {
    RowsAreOld(s, msgs);
    ReturnMoves(msgs, mv.id, row.id);
    RowAppended(s, row, s');
    forall r, m' | r in s'.messages && m' in Moved(msgs, mv) && m'.place == Queued(r.id)
      ensures RowHolds(r, m'.origin)
    {
      ReturnedRowHolds(s, msgs, mv, row, r, m');
    }
  }

  lemma RowAppended(s: Outbox, row: MessageRow, s': Outbox)
    requires RowsOrdered(s) && row.id == s.lastId + 1 && !row.delivered
    requires s'.messages == s.messages + [row] && s'.lastId == row.id
    ensures RowsOrdered(s') && Waitings(s'.messages) == Waitings(s.messages) + {row.id}
    ensures forall r :: r in s'.messages <==> r in s.messages || r == row
  {
    assert forall r :: r in s'.messages <==> r in s.messages || r == row;
    assert forall i :: 0 <= i < |s.messages| ==> s.messages[i] in s.messages;
  }

  lemma ReturnedRowHolds(s: Outbox, msgs: seq<Logical>, mv: Move, row: MessageRow, r: MessageRow, m': Logical)
    requires QueueKept(s, msgs) && mv.Return? && mv.row == row.id == s.lastId + 1
    requires forall m :: m in msgs && m.place.InFlight? && m.place.id == mv.id ==> RowHolds(row, m.origin)
    requires r in s.messages || r == row
    requires m' in Moved(msgs, mv) && m'.place == Queued(r.id)
    ensures RowHolds(r, m'.origin)
  {
    RowsAreOld(s, msgs);
    MovedMembers(msgs, mv);
    var m :| m in msgs && m' == After(m, mv);
    if m.place.InFlight? {
      assert r == row;
    } else {
      assert m.place == Queued(r.id) && r != row;
    }
  }

  lemma HandOffKeeps(s: Outbox, msgs: seq<Logical>, clock: int, id: u64, peer: string)
    requires Kept(s, msgs, clock) && id in s.tracker && s.tracker[id].peer == peer
    ensures Kept(HandedOff(s, id, peer), Moved(msgs, Return(id, s.lastId + 1)), clock)
  {
    var mv := Return(id, s.lastId + 1);
    RowsAreOld(s, msgs);
    ReturnMoves(msgs, id, s.lastId + 1);
    DropsStay(msgs, mv, clock);
    var row := Pushed(s.lastId + 1, peer, s.tracker[id].content, Some(s.tracker[id].ttl));
    ReturnKeepsQueue(s, msgs, mv, row, HandedOff(s, id, peer));
    TakenOut(msgs, mv, s.tracker, s.tracker - {id});
  }

  lemma PurgedMembers(rows: seq<MessageRow>, now: i64)
    ensures var kept := Filter(Filter(rows, NotPurgedAt(now)), NotDelivered());
      forall r :: r in kept <==> r in rows && !r.delivered && Alive(r.expiresAt, now)
  {
    FilterMembers(rows, NotPurgedAt(now));
    FilterMembers(Filter(rows, NotPurgedAt(now)), NotDelivered());
  }

  lemma {:induction false} FilterKeepsOrder(rows: seq<MessageRow>, p: MessageRow -> bool)
    requires IdsIncrease(rows)
    ensures IdsIncrease(Filter(rows, p))
  {
    if rows != [] {
      var kept := Filter(rows[1..], p);
      FilterKeepsOrder(rows[1..], p);
      FilterMembers(rows[1..], p);
      assert forall r :: r in rows[1..] ==> rows[0].id < r.id;
      assert forall j :: 0 <= j < |kept| ==> kept[j] in kept;
      assert IdsIncrease([rows[0]] + kept);
    }
  }

  lemma PurgeLeavesRows(s: Outbox, now: i64, s': Outbox)
    requires RowsOrdered(s)
    requires s'.messages == Filter(Filter(s.messages, NotPurgedAt(now)), NotDelivered()) && s'.lastId == s.lastId
    ensures RowsOrdered(s')
    ensures Waitings(s'.messages) == Waitings(s.messages) - ExpiredRows(s.messages, now)
    ensures forall r :: r in s'.messages ==> r in s.messages
  {
    PurgedMembers(s.messages, now);
    FilterKeepsOrder(s.messages, NotPurgedAt(now));
    FilterKeepsOrder(Filter(s.messages, NotPurgedAt(now)), NotDelivered());
    IdsAreUnique(s);
  }

  lemma PurgeKeepsQueue(s: Outbox, msgs: seq<Logical>, now: i64, s': Outbox)
    requires Apart(msgs) && QueueKept(s, msgs)
    requires s'.messages == Filter(Filter(s.messages, NotPurgedAt(now)), NotDelivered()) && s'.lastId == s.lastId
    ensures QueueKept(s', Moved(msgs, Purge(ExpiredRows(s.messages, now), now)))
  {
    var expired := ExpiredRows(s.messages, now);
    PurgeMoves(msgs, expired, now);
    PurgeLeavesRows(s, now, s');
    RowsStillHold(s, msgs, expired, now, s');
  }

  lemma RowsStillHold(s: Outbox, msgs: seq<Logical>, rows: set<nat>, at: int, s': Outbox)
    requires QueueKept(s, msgs) && forall r :: r in s'.messages ==> r in s.messages
    ensures forall r, m ::
      r in s'.messages && m in Moved(msgs, Purge(rows, at)) && m.place == Queued(r.id) ==> RowHolds(r, m.origin)
  {
    var mv := Purge(rows, at);
    forall r, m' | r in s'.messages && m' in Moved(msgs, mv) && m'.place == Queued(r.id)
      ensures RowHolds(r, m'.origin)
    {
      MovedMembers(msgs, mv);
      var m :| m in msgs && m' == After(m, mv);
    }
  }

  lemma IdsAreUnique(s: Outbox)
    requires RowsOrdered(s)
    ensures forall r, r' :: r in s.messages && r' in s.messages && r.id == r'.id ==> r == r'
  {
    forall r, r' | r in s.messages && r' in s.messages && r.id == r'.id
      ensures r == r'
    {
      var i :| 0 <= i < |s.messages| && s.messages[i] == r;
      var j :| 0 <= j < |s.messages| && s.messages[j] == r';
      assert !(i < j) && !(j < i);
    }
  }

  lemma PurgeJustified(s: Outbox, msgs: seq<Logical>, clock: int, now: i64)
    requires QueueKept(s, msgs) && DropsJustified(msgs, clock)
    ensures DropsJustified(Moved(msgs, Purge(ExpiredRows(s.messages, now), now)), Later(clock, now))
  {
    var mv := Purge(ExpiredRows(s.messages, now), now);
    MovedMembers(msgs, mv);
    forall m' | m' in Moved(msgs, mv) && m'.place.Dropped?
      ensures m'.origin.Expiry() <= m'.place.at <= Later(clock, now)
    {
      var m :| m in msgs && m' == After(m, mv);
      if m.place.Queued? {
        var r :| r in s.messages && !NotPurgedAt(now)(r) && r.id == m.place.row;
        assert RowHolds(r, m.origin);
      }
    }
  }

  lemma PurgeKeepsFlight(s: Outbox, msgs: seq<Logical>, mv: Move, s': Outbox)
    requires mv.Purge? && Apart(msgs) && FlightKept(s, msgs)
    requires s'.tracker == s.tracker && s'.nextRequest == s.nextRequest
    ensures FlightKept(s', Moved(msgs, mv))
  {
    PurgeMoves(msgs, mv.rows, mv.at);
    MovedMembers(msgs, mv);
  }

  lemma PurgeKeeps(s: Outbox, msgs: seq<Logical>, clock: int, now: i64, s': Outbox)
    requires Kept(s, msgs, clock)
    requires s'.messages == Filter(Filter(s.messages, NotPurgedAt(now)), NotDelivered())
    requires s'.lastId == s.lastId && s'.tracker == s.tracker && s'.nextRequest == s.nextRequest
    ensures Kept(s', Moved(msgs, Purge(ExpiredRows(s.messages, now), now)), Later(clock, now))
  {
    var mv := Purge(ExpiredRows(s.messages, now), now);
    PurgeMoves(msgs, mv.rows, now);
    PurgeKeepsQueue(s, msgs, now, s');
    PurgeJustified(s, msgs, clock, now);
    PurgeKeepsFlight(s, msgs, mv, s');
  }
}
