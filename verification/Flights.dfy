/** What one message looks like on the wire, from its flush to its ACK or hand-off, and
    what a receiver makes of it. */
module Flights {
  import opened Base
  import opened Chat
  import opened MessageQueue
  import opened Reliability
  import opened Outbox
  import opened Ledger
  import opened Delivery
  import Dedup
  import I = Inbox
  import S = Sequence

  // ── What is sent is what is tracked ─────────────────────────────────

  /** The tracker holds, under its id and for its peer, the message that t carries. */
  ghost predicate Registered(t: Transmission, tracker: InFlightMap) {
    t.id in tracker && t.peer == tracker[t.id].peer && Copy(t.request, RequestOf(tracker[t.id], t.request.ts))
  }

  ghost predicate AllRegistered(sent: seq<Transmission>, tracker: InFlightMap) {
    forall i :: 0 <= i < |sent| ==> Registered(sent[i], tracker)
  }

  lemma {:induction false} FlushKeepsEntries(s: Outbox, rows: seq<MessageRow>, peer: string, from: string, now: i64,
      msgIds: seq<u64>)
    requires |msgIds| == |rows| && s.nextRequest + |rows| <= TWO_TO_THE_64 && IdsIssued(s)
    ensures var s' := FlushedAll(s, rows, peer, from, now, msgIds);
      forall id :: id in s.tracker ==> id in s'.tracker && s'.tracker[id] == s.tracker[id]
    decreases |rows|
  {
    if rows != [] {
      FlushKeepsEntries(FlushedOne(s, rows[0], peer, from, now, msgIds[0]), rows[1..], peer, from, now, msgIds[1..]);
    }
  }

  lemma {:induction false} FlushRegisters(s: Outbox, rows: seq<MessageRow>, peer: string, from: string, now: i64,
      msgIds: seq<u64>)
    requires |msgIds| == |rows| && s.nextRequest + |rows| <= TWO_TO_THE_64 && IdsIssued(s)
    ensures AllRegistered(FlushSent(s, rows, peer, from, now, msgIds),
      FlushedAll(s, rows, peer, from, now, msgIds).tracker)
    decreases |rows|
  {
    if rows != [] {
      var s' := FlushedOne(s, rows[0], peer, from, now, msgIds[0]);
      FlushSentCons(s, rows, peer, from, now, msgIds);
      FlushRegisters(s', rows[1..], peer, from, now, msgIds[1..]);
      FlushKeepsEntries(s', rows[1..], peer, from, now, msgIds[1..]);
      assert s.nextRequest in s'.tracker;
    }
  }

  lemma {:induction false} RecoveryRegisters(s: Outbox, rows: seq<StoredPending>, now: i64)
    requires s.nextRequest + |rows| <= TWO_TO_THE_64 && IdsIssued(s)
    ensures AllRegistered(ResentAll(s.nextRequest, rows, now), RecoveredAll(s, rows, now).tracker)
    decreases |rows|
  {
    if rows != [] {
      var s' := RecoveredOne(s, rows[0], now);
      RecoveryRegisters(s', rows[1..], now);
      Persistence.RecoveryRetracksEachOnce(s', rows[1..], now);
      assert now <= rows[0].ttl ==> s.nextRequest in s'.tracker;
    }
  }

  /** Every step: what it sends is registered afterwards, under the id it was sent with. */
  lemma SentIsRegistered(s: Outbox, e: Event)
    requires Enabled(s, e) && IdsIssued(s)
    ensures AllRegistered(Sent(s, e), Step(s, e).tracker)
  {
    match e
    case Connected(peer, from, now, msgIds) =>
      FlushRegisters(s, PendingFor(s.messages, peer, now), peer, from, now, msgIds);
    case Restart(now, firstRequest, keys) =>
      RecoveryRegisters(Rebooted(s, firstRequest), LoadedAll(s.table, keys), now);
    case _ =>
  }

  // ── When it was sent, and what is stored ────────────────────────────

  /** The row stored under t's id holds what t carries and was created at time now. */
  ghost predicate StoredFor(t: Transmission, table: PendingTable, now: i64) {
    && AsI64(t.id) in table
    && var row := Loaded(AsI64(t.id), table[AsI64(t.id)]);
       && row.requestId == t.id && row.createdAt == now && row.peer == t.peer
       && Copy(t.request, ChatRequest(row.from, row.content, t.request.ts, row.msgId, row.ttl, row.seqNo, None))
  }

  lemma {:induction false} FlushKeepsRow(
    s: Outbox, rows: seq<MessageRow>, peer: string, from: string, now: i64, msgIds: seq<u64>, id: u64)
    requires |msgIds| == |rows| && s.nextRequest + |rows| <= TWO_TO_THE_64
    requires id < s.nextRequest && AsI64(id) in s.table
    ensures var s' := FlushedAll(s, rows, peer, from, now, msgIds);
      AsI64(id) in s'.table && s'.table[AsI64(id)] == s.table[AsI64(id)]
    decreases |rows|
  {
    if rows != [] {
      CastsRoundTrip(id, 0);
      CastsRoundTrip(s.nextRequest, 0);
      FlushKeepsRow(FlushedOne(s, rows[0], peer, from, now, msgIds[0]), rows[1..], peer, from, now, msgIds[1..], id);
    }
  }

  lemma FlushOneStores(s: Outbox, row: MessageRow, peer: string, from: string, now: i64, msgId: u64)
    requires s.nextRequest < TWO_TO_THE_64
    ensures var e := Outgoing(s, row, peer, from, now, msgId);
      var table := FlushedOne(s, row, peer, from, now, msgId).table;
      && StoredFor(Transmission(s.nextRequest, peer, RequestOf(e, now)), table, now)
      && table[AsI64(s.nextRequest)].retries == 0
  {
    StoreThenLoad(s.table, Stored(s.nextRequest, peer, Outgoing(s, row, peer, from, now, msgId), now));
  }

  lemma {:induction false} FlushStores(
    s: Outbox, rows: seq<MessageRow>, peer: string, from: string, now: i64, msgIds: seq<u64>, i: nat)
    requires |msgIds| == |rows| && s.nextRequest + |rows| <= TWO_TO_THE_64 && i < |rows|
    ensures var t := FlushSent(s, rows, peer, from, now, msgIds)[i];
      var table := FlushedAll(s, rows, peer, from, now, msgIds).table;
      StoredFor(t, table, now) && table[AsI64(t.id)].retries == 0
    decreases |rows|
  {
    var s' := FlushedOne(s, rows[0], peer, from, now, msgIds[0]);
    FlushSentCons(s, rows, peer, from, now, msgIds);
    if i == 0 {
      FlushOneStores(s, rows[0], peer, from, now, msgIds[0]);
      FlushKeepsRow(s', rows[1..], peer, from, now, msgIds[1..], s.nextRequest);
    } else {
      FlushStores(s', rows[1..], peer, from, now, msgIds[1..], i - 1);
    }
  }

  lemma RetryStores(s: Outbox, e: Event)
    requires e.SendFailed? && Enabled(s, e) && e.id in s.tracker && MayRetry(s.tracker[e.id])
    ensures var t, table := Transmission(s.nextRequest, e.peer, RequestOf(s.tracker[e.id], e.now)), Step(s, e).table;
      StoredFor(t, table, e.now) && table[AsI64(t.id)].retries == s.tracker[e.id].retries + 1
      && table[AsI64(t.id)].ts == s.tracker[e.id].ts
  {
    var entry := Failed(s.tracker[e.id]);
    StoreThenLoad(WithoutRow(s.table, e.id), Stored(s.nextRequest, e.peer, entry, e.now));
  }

  /** What recovery sends, and what it stores and tracks, row by row: the stored row again,
      retries and time included, under the new id; the entry counts retries from 0. */
  ghost predicate ComesBack(t: Transmission, row: StoredPending, table: PendingTable, tracker: InFlightMap, now: i64) {
    && t.peer == row.peer
    && t.request == ChatRequest(row.from, row.content, row.ts, row.msgId, row.ttl, row.seqNo, None)
    && AsI64(t.id) in table && Loaded(AsI64(t.id), table[AsI64(t.id)]) == row.(requestId := t.id, createdAt := now)
    && t.id in tracker
    && tracker[t.id] == PendingEntry(row.peer, row.from, row.content, row.ts, row.msgId, row.ttl, row.seqNo, 0)
  }

  lemma {:induction false} RecoveryKeepsRow(s: Outbox, rows: seq<StoredPending>, now: i64, id: u64)
    requires s.nextRequest + |rows| <= TWO_TO_THE_64
    requires id < s.nextRequest && AsI64(id) in s.table && id in s.tracker
    ensures var s' := RecoveredAll(s, rows, now);
      && AsI64(id) in s'.table && s'.table[AsI64(id)] == s.table[AsI64(id)]
      && id in s'.tracker && s'.tracker[id] == s.tracker[id]
    decreases |rows|
  {
    if rows != [] {
      CastsRoundTrip(id, 0);
      CastsRoundTrip(s.nextRequest, 0);
      RecoveryKeepsRow(RecoveredOne(s, rows[0], now), rows[1..], now, id);
    }
  }

  lemma FirstComesBack(s: Outbox, row: StoredPending, now: i64)
    requires s.nextRequest < TWO_TO_THE_64 && now <= row.ttl
    ensures var s' := RecoveredOne(s, row, now);
      var t := Transmission(s.nextRequest, row.peer, RequestOf(Retracked(row), row.ts));
      ComesBack(t, row, s'.table, s'.tracker, now)
  {
    StoreThenLoad(s.table, row.(requestId := s.nextRequest, createdAt := now));
  }

  /** The j-th transmission of a recovery is the j-th unexpired row, in load order. */
  lemma {:induction false} RecoveryIsExact(s: Outbox, rows: seq<StoredPending>, now: i64, j: nat)
    requires s.nextRequest + |rows| <= TWO_TO_THE_64
    ensures |ResentAll(s.nextRequest, rows, now)| == |Filter(rows, Persistence.Unexpired(now))|
    ensures var sent, s' := ResentAll(s.nextRequest, rows, now), RecoveredAll(s, rows, now);
      j < |sent| ==>
        && sent[j].id == s.nextRequest + j
        && ComesBack(sent[j], Filter(rows, Persistence.Unexpired(now))[j], s'.table, s'.tracker, now)
    decreases |rows|
  {
    if rows != [] {
      var s' := RecoveredOne(s, rows[0], now);
      var rest := Filter(rows[1..], Persistence.Unexpired(now));
      if rows[0].ttl < now {
        assert Filter(rows, Persistence.Unexpired(now)) == rest;
        RecoveryIsExact(s', rows[1..], now, j);
      } else {
        assert Filter(rows, Persistence.Unexpired(now)) == [rows[0]] + rest;
        RecoveryIsExact(s', rows[1..], now, if j == 0 then 0 else j - 1);
        FirstComesBack(s, rows[0], now);
        RecoveryKeepsRow(s', rows[1..], now, s.nextRequest);
      }
    }
  }

  /** When each request goes out and with which time: a flush and a retry carry the time of
      their event, whatever time the message was first sent; a recovery repeats the time
      that was stored, which is the time on record for the message in flight. */
  lemma SentTimes(s: Outbox, l: Ledger, e: Event, t: Transmission)
    requires Enabled(s, e) && Healthy(s, l) && t in Sent(s, e)
    ensures e.Connected? || e.SendFailed? || e.Restart?
    ensures !e.Restart? ==> t.request.ts == e.now
    ensures e.Restart? ==> exists m ::
      m in Follow(s, l, e).msgs && m.place.InFlight? && m.place.id == t.id && t.request.ts == m.place.wire.ts
  {
    if e.Restart? {
      RestartTimes(s, l, e, t);
    }
  }

  lemma RestartTimes(s: Outbox, l: Ledger, e: Event, t: Transmission)
    requires e.Restart? && Enabled(s, e) && Healthy(s, l) && t in Sent(s, e)
    ensures exists m ::
      m in Follow(s, l, e).msgs && m.place.InFlight? && m.place.id == t.id && t.request.ts == m.place.wire.ts
  {
    var sent := Sent(s, e);
    var j :| 0 <= j < |sent| && sent[j] == t;
    RecoveryIsExact(Rebooted(s, e.firstRequest), LoadedAll(s.table, e.keys), e.now, j);
    StepIsHealthy(s, l, e);
    HeldTime(Step(s, e), Follow(s, l, e), t.id);
  }

  lemma HeldTime(s: Outbox, l: Ledger, id: u64)
    requires Conserved(s, l) && id in s.tracker
    ensures exists m :: m in l.msgs && m.place.InFlight? && m.place.id == id && m.place.wire.ts == s.tracker[id].ts
  {
    assert id in RequestsIn(l.msgs);
    var m :| m in l.msgs && m.place.InFlight? && m.place.id == id;
    assert Tracked(m, s.tracker);
  }

  /** Everything a step sends is stored, as of the time of the step, with the retries it
      has used; for a recovery see RecoveryIsExact. */
  lemma SentIsStored(s: Outbox, e: Event, t: Transmission)
    requires Enabled(s, e) && IdsIssued(s) && t in Sent(s, e) && !e.Restart?
    ensures StoredFor(t, Step(s, e).table, e.now)
    ensures Step(s, e).table[AsI64(t.id)].retries == if e.SendFailed? then s.tracker[e.id].retries + 1 else 0
  {
    if e.Connected? {
      var rows := PendingFor(s.messages, e.peer, e.now);
      var i :| 0 <= i < |Sent(s, e)| && Sent(s, e)[i] == t;
      FlushStores(s, rows, e.peer, e.from, e.now, e.msgIds, i);
    } else {
      RetryStores(s, e);
    }
  }

  // ── One flight ──────────────────────────────────────────────────────

  /** The requests among sent that carry this id. */
  function Under(sent: seq<Transmission>, id: u64): seq<ChatRequest> {
    if sent == [] then []
    else (if sent[0].id == id then [sent[0].request] else []) + Under(sent[1..], id)
  }

  /** Everything sent for push i since it last left the queue, oldest first. */
  ghost function Flight(events: seq<Event>, i: nat): seq<ChatRequest> {
    if events == [] then []
    else
      var before, e := events[..|events| - 1], events[|events| - 1];
      var (s, l) := Run(before);
      if !Enabled(s, e) || |l.msgs| <= i then Flight(before, i)
      else FlightAfter(Flight(before, i), s, l, e, i)
  }

  ghost function FlightAfter(flight: seq<ChatRequest>, s: Outbox, l: Ledger, e: Event, i: nat): seq<ChatRequest>
    requires Enabled(s, e) && i < |l.msgs|
  {
    var msgs' := Follow(s, l, e).msgs;
    var p, p' := l.msgs[i].place, if i < |msgs'| then msgs'[i].place else l.msgs[i].place;
    var sent := if p'.InFlight? then Under(Sent(s, e), p'.id) else [];
    if p.Queued? && p'.InFlight? then sent else flight + sent
  }

  /** The request carries the pushed content and expiry under the flight's identity. */
  predicate Carries(r: ChatRequest, o: Origin, w: Wire) {
    r.content == o.content && r.ttl == o.Expiry() && r.from == w.from && r.msgId == w.msgId && r.seqNo == w.seqNo
      && r.service == None
  }

  ghost predicate AllCarry(flight: seq<ChatRequest>, o: Origin, w: Wire) {
    forall r :: r in flight ==> Carries(r, o, w)
  }

  /** The flight so far is one message, and while in flight it is the one on record. */
  ghost predicate Uniform(flight: seq<ChatRequest>, m: Logical) {
    && (exists w :: AllCarry(flight, m.origin, w))
    && (m.place.InFlight? ==> AllCarry(flight, m.origin, m.place.wire))
  }

  lemma {:induction false} UnderCarries(sent: seq<Transmission>, id: u64, tracker: InFlightMap, o: Origin, w: Wire)
    requires AllRegistered(sent, tracker) && id in tracker && EntryHolds(tracker[id], o, w)
    ensures AllCarry(Under(sent, id), o, w)
  {
    if sent != [] {
      assert Registered(sent[0], tracker);
      assert forall i :: 0 <= i < |sent| - 1 ==> sent[1..][i] == sent[i + 1];
      UnderCarries(sent[1..], id, tracker, o, w);
    }
  }

  /** What a step sends for push i carries it. */
  lemma StepCarries(s: Outbox, l: Ledger, e: Event, m': Logical, tracker: InFlightMap)
    requires Enabled(s, e) && IdsIssued(s) && tracker == Step(s, e).tracker
    requires m'.place.InFlight? && Tracked(m', tracker)
    ensures AllCarry(Under(Sent(s, e), m'.place.id), m'.origin, m'.place.wire)
  {
    SentIsRegistered(s, e);
    UnderCarries(Sent(s, e), m'.place.id, tracker, m'.origin, m'.place.wire);
  }

  lemma StepTracks(s: Outbox, l: Ledger, e: Event, i: nat)
    requires Enabled(s, e) && Healthy(s, l) && i < |Follow(s, l, e).msgs|
    ensures IdsIssued(s) && Tracked(Follow(s, l, e).msgs[i], Step(s, e).tracker)
  {
    StepIsHealthy(s, l, e);
    TrackedAt(Step(s, e), Follow(s, l, e), i);
  }

  lemma TrackedAt(s: Outbox, l: Ledger, i: nat)
    requires Conserved(s, l) && i < |l.msgs|
    ensures Tracked(l.msgs[i], s.tracker)
  {
    assert l.msgs[i] in l.msgs;
  }

  lemma StepIsUniform(flight: seq<ChatRequest>, s: Outbox, l: Ledger, e: Event, i: nat)
    requires Enabled(s, e) && Healthy(s, l) && i < |l.msgs| && Uniform(flight, l.msgs[i])
    ensures i < |Follow(s, l, e).msgs|
    ensures Uniform(FlightAfter(flight, s, l, e, i), Follow(s, l, e).msgs[i])
  {
    IdentityIsStable(s, l, e, i);
    var m, m' := l.msgs[i], Follow(s, l, e).msgs[i];
    if m'.place.InFlight? {
      StepTracks(s, l, e, i);
      StepCarries(s, l, e, m', Step(s, e).tracker);
      FlightAfterInFlight(flight, s, l, e, i, m, m', Under(Sent(s, e), m'.place.id));
      UniformAfter(flight, Under(Sent(s, e), m'.place.id), m, m', e);
    } else {
      FlightAfterElse(flight, s, l, e, i);
    }
  }

  lemma FlightAfterInFlight(flight: seq<ChatRequest>, s: Outbox, l: Ledger, e: Event, i: nat, m: Logical, m': Logical,
      sent: seq<ChatRequest>)
    requires Enabled(s, e) && i < |l.msgs| && i < |Follow(s, l, e).msgs|
    requires m == l.msgs[i] && m' == Follow(s, l, e).msgs[i] && m'.place.InFlight?
      && sent == Under(Sent(s, e), m'.place.id)
    ensures FlightAfter(flight, s, l, e, i) == if m.place.Queued? then sent else flight + sent
  {
  }

  lemma FlightAfterElse(flight: seq<ChatRequest>, s: Outbox, l: Ledger, e: Event, i: nat)
    requires Enabled(s, e) && i < |l.msgs| && i < |Follow(s, l, e).msgs|
    requires !Follow(s, l, e).msgs[i].place.InFlight?
    ensures FlightAfter(flight, s, l, e, i) == flight
  {
    assert flight + [] == flight;
  }

  lemma UniformAfter(flight: seq<ChatRequest>, sent: seq<ChatRequest>, m: Logical, m': Logical, e: Event)
    requires Uniform(flight, m) && m'.origin == m.origin && m'.place.InFlight? && Evolves(m.place, m'.place, e)
    requires AllCarry(sent, m'.origin, m'.place.wire)
    ensures Uniform(if m.place.Queued? then sent else flight + sent, m')
  {
  }

  lemma {:induction false} NoneBeforePush(events: seq<Event>, i: nat)
    requires |Run(events).1.msgs| <= i
    ensures Flight(events, i) == []
  {
    if events != [] {
      var before, e := events[..|events| - 1], events[|events| - 1];
      EveryRunConserves(before);
      if Enabled(Run(before).0, e) && i < |Run(before).1.msgs| {
        IdentityIsStable(Run(before).0, Run(before).1, e, i);
      }
      NoneBeforePush(before, i);
    }
  }

  /** A new push starts in the queue, with nothing sent. */
  lemma NewPushIsQueued(s: Outbox, l: Ledger, e: Event, i: nat)
    requires Enabled(s, e) && |l.msgs| <= i < |Follow(s, l, e).msgs| && NoneLost(l.msgs)
    ensures Follow(s, l, e).msgs[i].place.Queued?
  {
    if !e.Enqueue? {
      SameLength(s, l, e);
      assert false;
    }
  }

  lemma SameLength(s: Outbox, l: Ledger, e: Event)
    requires Enabled(s, e) && !e.Enqueue? && NoneLost(l.msgs)
    ensures |Follow(s, l, e).msgs| == |l.msgs|
  {
    match e
    case Connected(peer, from, now, msgIds) =>
      DepartedLength(l.msgs, s, PendingFor(s.messages, peer, now), peer, from, now, msgIds);
    case Restart(now, firstRequest, keys) =>
      RegainedLength(Moved(l.msgs, Lose), firstRequest, LoadedAll(s.table, keys), now);
    case _ =>
  }

  lemma {:induction false} DepartedLength(
    msgs: seq<Logical>, s: Outbox, rows: seq<MessageRow>, peer: string, from: string, now: i64, msgIds: seq<u64>)
    requires |msgIds| == |rows| && s.nextRequest + |rows| <= TWO_TO_THE_64
    ensures |DepartedAll(msgs, s, rows, peer, from, now, msgIds)| == |msgs|
    decreases |rows|
  {
    if rows != [] {
      DepartedLength(Moved(msgs, Depart(rows[0].id, s.nextRequest, Wire(from, msgIds[0], s.seqCounter, now))),
                     FlushedOne(s, rows[0], peer, from, now, msgIds[0]), rows[1..], peer, from, now, msgIds[1..]);
    }
  }

  lemma {:induction false} RegainedLength(msgs: seq<Logical>, next: nat, rows: seq<StoredPending>, now: i64)
    requires next + |rows| <= TWO_TO_THE_64
    ensures |RegainedAll(msgs, next, rows, now)| == |msgs|
    decreases |rows|
  {
    if rows != [] {
      if rows[0].ttl < now {
        RegainedLength(msgs, next, rows[1..], now);
      } else {
        RegainedLength(Moved(msgs, Regain(rows[0].requestId, next)), next + 1, rows[1..], now);
      }
    }
  }

  lemma NothingIsUniform(m: Logical)
    requires !m.place.InFlight?
    ensures Uniform([], m)
  {
    assert AllCarry([], m.origin, Wire("", 0, 0, 0));
  }

  /** Over every run: all transmissions of one flight, first send, retries and re-sends
      after crashes, carry the pushed content and expiry and one sender, msg_id and seq. */
  lemma {:induction false} FlightIsUniform(events: seq<Event>, i: nat)
    requires i < |Run(events).1.msgs|
    ensures Uniform(Flight(events, i), Run(events).1.msgs[i])
  {
    if events != [] {
      var before, e := events[..|events| - 1], events[|events| - 1];
      var s, l := Run(before).0, Run(before).1;
      EveryRunConserves(before);
      if |l.msgs| <= i {
        NoneBeforePush(before, i);
        NewPushIsQueued(s, l, e, i);
        NothingIsUniform(Run(events).1.msgs[i]);
      } else {
        FlightIsUniform(before, i);
        if Enabled(s, e) {
          StepIsUniform(Flight(before, i), s, l, e, i);
        }
      }
    }
  }

  /** Two transmissions of one flight are copies of each other. */
  lemma FlightCopies(events: seq<Event>, i: nat, r: ChatRequest, r': ChatRequest)
    requires i < |Run(events).1.msgs| && r in Flight(events, i) && r' in Flight(events, i)
    ensures Copy(r, r')
  {
    FlightIsUniform(events, i);
    var w :| AllCarry(Flight(events, i), Run(events).1.msgs[i].origin, w);
    assert Carries(r, Run(events).1.msgs[i].origin, w) && Carries(r', Run(events).1.msgs[i].origin, w);
  }

  /** Every transmission belongs to a message in flight, and to one only. */
  lemma SentForOneMessage(s: Outbox, l: Ledger, e: Event, t: Transmission)
    requires Enabled(s, e) && Healthy(s, l) && t in Sent(s, e)
    ensures exists m ::
      m in Follow(s, l, e).msgs && m.place.InFlight? && m.place.id == t.id && Carries(t.request, m.origin, m.place.wire)
    ensures forall i, j :: 0 <= i < j < |Follow(s, l, e).msgs| ==>
      !(Follow(s, l, e).msgs[i].place.InFlight? && Follow(s, l, e).msgs[j].place.InFlight?
        && Follow(s, l, e).msgs[i].place.id == t.id == Follow(s, l, e).msgs[j].place.id)
  {
    StepIsHealthy(s, l, e);
    SentIsRegistered(s, e);
    RegisteredIsHeld(Step(s, e), Follow(s, l, e), t);
  }

  lemma RegisteredIsHeld(s: Outbox, l: Ledger, t: Transmission)
    requires Conserved(s, l) && Registered(t, s.tracker)
    ensures exists m ::
      m in l.msgs && m.place.InFlight? && m.place.id == t.id && Carries(t.request, m.origin, m.place.wire)
  {
    assert t.id in RequestsIn(l.msgs);
    var m :| m in l.msgs && m.place.InFlight? && m.place.id == t.id;
    assert Tracked(m, s.tracker);
  }

  /** Sender and receiver together: however often a flight is transmitted, whatever the
      receiver's run, two processings of it have 10,000 other messages between them. */
  lemma FlightIsProcessedOnce(events: seq<Event>, i: nat, received: seq<S.Event>, a: nat, b: nat)
    requires i < |Run(events).1.msgs| && a < b < |I.ProcessedLog(received)|
    requires I.ProcessedLog(received)[a].msg in Flight(events, i)
      && I.ProcessedLog(received)[b].msg in Flight(events, i)
    ensures 10_000 <= b - a - 1
  {
    var log := I.ProcessedLog(received);
    FlightCopies(events, i, log[a].msg, log[b].msg);
    I.ProcessedIsFilteredDelivery(received);
    var ids := I.Ids(I.Messages(log));
    assert ids[a] == log[a].msg.msgId && ids[b] == log[b].msg.msgId;
  }
}
