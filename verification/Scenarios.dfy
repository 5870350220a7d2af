/** Two short runs of a daemon in which an acknowledged message is never delivered. */
module Scenarios {
  import opened Base
  import opened Chat
  import opened MessageQueue
  import opened Outbox
  import opened Ledger
  import S = Sequence

  lemma RunOne(events: seq<Event>, e: Event)
    ensures Run(events + [e]) == Next(Run(events), e)
  {
    assert (events + [e])[..|events|] == events;
  }

  // ── Single steps ────────────────────────────────────────────────────

  /** Flushing one row. */
  lemma FlushSingle(s: Outbox, l: Ledger, row: MessageRow, peer: string, from: string, now: i64, msgId: u64)
    requires PendingFor(s.messages, peer, now) == [row] && s.nextRequest < TWO_TO_THE_64
    ensures var e := Connected(peer, from, now, [msgId]);
      && Enabled(s, e)
      && Step(s, e) == FlushedOne(s, row, peer, from, now, msgId)
      && Follow(s, l, e) == l.(msgs := Moved(l.msgs,
        Depart(row.id, s.nextRequest, Wire(from, msgId, s.seqCounter, now))))
      && Sent(s, e) == [Transmission(s.nextRequest, peer, RequestOf(Outgoing(s, row, peer, from, now, msgId), now))]
  {
    var ids := [msgId];
    assert [row][1..] == [] && ids[1..] == [];
    FlushSentCons(s, [row], peer, from, now, ids);
    var s' := FlushedOne(s, row, peer, from, now, msgId);
    assert FlushedAll(s', [], peer, from, now, []) == s';
    var msgs' := Moved(l.msgs, Depart(row.id, s.nextRequest, Wire(from, msgId, s.seqCounter, now)));
    assert DepartedAll(msgs', s', [], peer, from, now, []) == msgs';
  }

  lemma OneWaiting(row: MessageRow, peer: string, now: i64)
    requires row.peer == peer && !row.delivered && row.expiresAt.None?
    ensures PendingFor([row], peer, now) == [row]
  {
    FilterOne(row, WaitingFor(peer, now));
  }

  lemma OneOfTwoWaiting(first: MessageRow, second: MessageRow, peer: string, now: i64)
    requires first.expiresAt.None? && second.expiresAt.None?
    ensures PendingFor([first, second], peer, now)
         == (if first.peer == peer && !first.delivered then [first] else [])
          + (if second.peer == peer && !second.delivered then [second] else [])
  {
    assert [first, second] == [first] + [second];
    FilterCons(first, [second], WaitingFor(peer, now));
    FilterOne(second, WaitingFor(peer, now));
  }

  // ── One counter for two peers ───────────────────────────────────────

  function TwoQueued(p: string, q: string, a: Text, b: Text): seq<Event> {
    [Enqueue(p, a, None)] + [Enqueue(q, b, None)]
  }

  function TwoRows(p: string, q: string, a: Text, b: Text): Outbox {
    FRESH.(messages := [Pushed(1, p, a, None), Pushed(2, q, b, None)], lastId := 2)
  }

  lemma TwoAreQueued(p: string, q: string, a: Text, b: Text)
    ensures Run(TwoQueued(p, q, a, b))
         == (TwoRows(p, q, a, b),
             BLANK.(msgs := [Logical(Origin(p, a, None), Queued(1)), Logical(Origin(q, b, None), Queued(2))]))
  {
    var first := [Enqueue(p, a, None)];
    RunOne([], Enqueue(p, a, None));
    RunOne(first, Enqueue(q, b, None));
    assert [] + [Enqueue(p, a, None)] == first;
    assert Run([]) == (FRESH, BLANK);
    assert FRESH.messages + [Pushed(1, p, a, None)] == [Pushed(1, p, a, None)];
    assert BLANK.msgs + [Logical(Origin(p, a, None), Queued(1))] == [Logical(Origin(p, a, None), Queued(1))];
    assert [Pushed(1, p, a, None)] + [Pushed(2, q, b, None)] == [Pushed(1, p, a, None), Pushed(2, q, b, None)];
    assert [Logical(Origin(p, a, None), Queued(1))] + [Logical(Origin(q, b, None), Queued(2))]
        == [Logical(Origin(p, a, None), Queued(1)), Logical(Origin(q, b, None), Queued(2))];
  }

  lemma FirstIsServed(p: string, q: string, a: Text, b: Text, from: string, now: i64, x: u64)
    requires p != q
    ensures var s := TwoRows(p, q, a, b);
      var s', l' := FlushedOne(s, s.messages[0], p, from, now, x),
        Run(TwoQueued(p, q, a, b) + [Connected(p, from, now, [x])]).1;
      && Run(TwoQueued(p, q, a, b) + [Connected(p, from, now, [x])]).0 == s'
      && s'.messages == [s.messages[0].(delivered := true), s.messages[1]]
      && |l'.msgs| == 2 && l'.msgs[1] == Logical(Origin(q, b, None), Queued(2))
  {
    var s, e := TwoRows(p, q, a, b), Connected(p, from, now, [x]);
    TwoAreQueued(p, q, a, b);
    OneOfTwoWaiting(s.messages[0], s.messages[1], p, now);
    assert PendingFor(s.messages, p, now) == [s.messages[0]];
    FlushSingle(s, Run(TwoQueued(p, q, a, b)).1, s.messages[0], p, from, now, x);
    RunOne(TwoQueued(p, q, a, b), e);
  }

  /** The step that serves q. */
  lemma SecondIsServed(p: string, q: string, a: Text, b: Text, from: string, now: i64, x: u64, y: u64)
    requires p != q
    ensures var (s, l) := Run(TwoQueued(p, q, a, b) + [Connected(p, from, now, [x])]);
      var e := Connected(q, from, now, [y]);
      && Enabled(s, e)
      && Sent(s, e) == [Transmission(2, q, ChatRequest(from, b, now, y, I64_MAX, 2, None))]
      && 2 in Step(s, e).tracker
      && |Follow(s, l, e).msgs| == 2 && Follow(s, l, e).msgs[1].place == InFlight(2, Wire(from, y, 2, now))
  {
    var events := TwoQueued(p, q, a, b) + [Connected(p, from, now, [x])];
    var s, l := Run(events).0, Run(events).1;
    FirstIsServed(p, q, a, b, from, now, x);
    OneOfTwoWaiting(s.messages[0], s.messages[1], q, now);
    assert PendingFor(s.messages, q, now) == [s.messages[1]];
    FlushSingle(s, l, s.messages[1], q, from, now, y);
  }

  lemma AckSettles(s: Outbox, l: Ledger, id: u64, i: nat)
    requires id in s.tracker && i < |l.msgs| && l.msgs[i].place.InFlight? && l.msgs[i].place.id == id
    ensures var msgs := Next((s, l), AckReceived(id)).1.msgs; |msgs| == |l.msgs| && msgs[i].place == Acked
  {
  }

  /** One message for p and one for q, then both peers connect: q is sent number 2, so a
      receiver that has reset and got everything sent to it delivers nothing; yet its ACK
      settles the message. */
  lemma SecondPeerHearsNothing(p: string, q: string, a: Text, b: Text, from: string, now: i64, x: u64, y: u64,
      sender: string)
    requires p != q
    ensures var before := Run(TwoQueued(p, q, a, b) + [Connected(p, from, now, [x])]);
      var e, request := Connected(q, from, now, [y]), ChatRequest(from, b, now, y, I64_MAX, 2, None);
      && Enabled(before.0, e) && Sent(before.0, e) == [Transmission(2, q, request)]
      && S.DeliveredTo([S.Reset(sender)] + [S.Arrive(sender, request)], sender) == []
      && var settled := Next(Next(before, e), AckReceived(2)).1.msgs;
         |settled| == 2 && settled[1].place == Acked
  {
    var before := Run(TwoQueued(p, q, a, b) + [Connected(p, from, now, [x])]);
    var e := Connected(q, from, now, [y]);
    SecondIsServed(p, q, a, b, from, now, x, y);
    AckSettles(Step(before.0, e), Follow(before.0, before.1, e), 2, 1);
    LaterNumberWaits(sender, ChatRequest(from, b, now, y, I64_MAX, 2, None));
  }

  lemma LaterNumberWaits(sender: string, request: ChatRequest)
    requires 1 < request.seqNo
    ensures S.DeliveredTo([S.Reset(sender)] + [S.Arrive(sender, request)], sender) == []
  {
    var events := [S.Reset(sender)] + [S.Arrive(sender, request)];
    assert events[..1] == [S.Reset(sender)] && events[..1][..0] == [];
    assert S.DeliveredTo(events[..1], sender) == [];
  }

  // ── A recovered message takes the number of a new one ───────────────

  function Sent1(p: string, a: Text, from: string, now: i64, x: u64): Outbox {
    FlushedOne(FRESH.(messages := [Pushed(1, p, a, None)], lastId := 1), Pushed(1, p, a, None), p, from, now, x)
  }

  lemma FirstIsSent(p: string, a: Text, from: string, now: i64, x: u64)
    ensures Run([Enqueue(p, a, None)] + [Connected(p, from, now, [x])]).0 == Sent1(p, a, from, now, x)
  {
    var first, row := [Enqueue(p, a, None)], Pushed(1, p, a, None);
    RunOne([], Enqueue(p, a, None));
    assert [] + [Enqueue(p, a, None)] == first;
    assert FRESH.messages + [row] == [row];
    OneWaiting(row, p, now);
    FlushSingle(Run(first).0, Run(first).1, row, p, from, now, x);
    RunOne(first, Connected(p, from, now, [x]));
  }

  function StoredFirst(p: string, a: Text, from: string, now: i64, x: u64): StoredPending {
    StoredPending(1, p, from, a, now, x, I64_MAX, 1, 0, now)
  }

  lemma FirstIsLoaded(p: string, a: Text, from: string, now: i64, x: u64)
    ensures var s := Sent1(p, a, from, now, x);
      IsLoadOrder(s.table, [1]) && LoadedAll(s.table, [1]) == [StoredFirst(p, a, from, now, x)]
  {
    var s := Sent1(p, a, from, now, x);
    StoreThenLoad(map[], StoredFirst(p, a, from, now, x));
    assert s.table == WithRow(map[], StoredFirst(p, a, from, now, x));
  }

  lemma FirstComesBack(p: string, a: Text, from: string, now: i64, x: u64)
    ensures var s, e := Sent1(p, a, from, now, x), Restart(now, 1, [1]);
      && Enabled(s, e)
      && Step(s, e) == RecoveredOne(Rebooted(s, 1), StoredFirst(p, a, from, now, x), now)
      && Sent(s, e) == [Transmission(1, p, ChatRequest(from, a, now, x, I64_MAX, 1, None))]
  {
    var s, row := Sent1(p, a, from, now, x), StoredFirst(p, a, from, now, x);
    FirstIsLoaded(p, a, from, now, x);
    assert [row][1..] == [];
    var back := RecoveredOne(Rebooted(s, 1), row, now);
    assert RecoveredAll(back, [], now) == back;
    assert ResentAll(2, [], now) == [];
  }

  /** After the restart the recovered message still has number 1, and so has the first
      message flushed: a receiver that gets both delivers the one that came first and
      drops the other. */
  lemma RecoveredNumberIsReused(p: string, a: Text, b: Text, from: string, now: i64, x: u64, y: u64, sender: string)
    ensures var killed := Run([Enqueue(p, a, None)] + [Connected(p, from, now, [x])]);
      var restart := Restart(now, 1, [1]);
      && Enabled(killed.0, restart)
      && var waiting := Next(Next(killed, restart), Enqueue(p, b, None));
         var flush := Connected(p, from, now, [y]);
         && Enabled(waiting.0, flush)
         && |Sent(killed.0, restart)| == |Sent(waiting.0, flush)| == 1
         && var old', new' := Sent(killed.0, restart)[0].request, Sent(waiting.0, flush)[0].request;
            && old'.content == a && new'.content == b && old'.seqNo == new'.seqNo == 1
            && S.DeliveredTo([S.Reset(sender)] + [S.Arrive(sender, old')] + [S.Arrive(sender, new')], sender) == [old']
  {
    var killed, restart := Run([Enqueue(p, a, None)] + [Connected(p, from, now, [x])]), Restart(now, 1, [1]);
    FirstIsSent(p, a, from, now, x);
    FirstComesBack(p, a, from, now, x);
    var waiting := Next(Next(killed, restart), Enqueue(p, b, None));
    var done, row := Pushed(1, p, a, None).(delivered := true), Pushed(2, p, b, None);
    assert waiting.0.messages == [done, row];
    OneOfTwoWaiting(done, row, p, now);
    assert PendingFor(waiting.0.messages, p, now) == [row];
    FlushSingle(waiting.0, waiting.1, row, p, from, now, y);
    FirstOneWins(sender, Sent(killed.0, restart)[0].request, ChatRequest(from, b, now, y, I64_MAX, 1, None));
  }

  lemma FirstOneWins(sender: string, first: ChatRequest, second: ChatRequest)
    requires first.seqNo == second.seqNo == 1
    ensures S.DeliveredTo([S.Reset(sender)] + [S.Arrive(sender, first)] + [S.Arrive(sender, second)], sender) == [first]
  {
    var one := [S.Reset(sender)] + [S.Arrive(sender, first)];
    var events := one + [S.Arrive(sender, second)];
    assert events[..2] == one && one[..1] == [S.Reset(sender)] && one[..1][..0] == [];
    assert S.DeliveredTo(one[..1], sender) == [];
    assert S.DeliveredTo(one, sender) == [first];
  }
}
