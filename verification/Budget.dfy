/** How often messages are put on the wire: in all, and one by one. */
module Budget {
  import opened Base
  import opened Chat
  import opened MessageQueue
  import opened Reliability
  import opened Outbox
  import opened Ledger
  import opened Delivery
  import opened Flights

  // ── The counters count transmissions ────────────────────────────────

  /** Everything put on the wire since the process started. */
  ghost function Lifetime(events: seq<Event>): seq<Transmission> {
    if events == [] then []
    else
      var before, e := events[..|events| - 1], events[|events| - 1];
      var s := Run(before).0;
      if !Enabled(s, e) then Lifetime(before)
      else if e.Restart? then Sent(s, e)
      else Lifetime(before) + Sent(s, e)
  }

  function Transmitted(s: Outbox): nat {
    s.counters.sent + s.counters.retried
  }

  lemma {:induction false} FlushCounts(s: Outbox, rows: seq<MessageRow>, peer: string, from: string, now: i64,
      msgIds: seq<u64>)
    requires |msgIds| == |rows| && s.nextRequest + |rows| <= TWO_TO_THE_64
    ensures Transmitted(FlushedAll(s, rows, peer, from, now, msgIds)) == Transmitted(s) + |rows|
    decreases |rows|
  {
    if rows != [] {
      FlushCounts(FlushedOne(s, rows[0], peer, from, now, msgIds[0]), rows[1..], peer, from, now, msgIds[1..]);
    }
  }

  lemma {:induction false} RecoveryCounts(s: Outbox, rows: seq<StoredPending>, now: i64)
    requires s.nextRequest + |rows| <= TWO_TO_THE_64
    ensures var sent, s' := ResentAll(s.nextRequest, rows, now), RecoveredAll(s, rows, now);
      Transmitted(s') == Transmitted(s) + |sent| && s'.nextRequest == s.nextRequest + |sent|
    decreases |rows|
  {
    if rows != [] {
      RecoveryCounts(RecoveredOne(s, rows[0], now), rows[1..], now);
    }
  }

  lemma StepCounts(s: Outbox, e: Event)
    requires Enabled(s, e)
    ensures Transmitted(Step(s, e)) == (if e.Restart? then 0 else Transmitted(s)) + |Sent(s, e)|
  {
    match e
    case Connected(peer, from, now, msgIds) =>
      FlushCounts(s, PendingFor(s.messages, peer, now), peer, from, now, msgIds);
    case Restart(now, firstRequest, keys) => RecoveryCounts(Rebooted(s, firstRequest), LoadedAll(s.table, keys), now);
    case _ =>
  }

  /** In every reachable state sent + retried is the number of transmissions of this
      process lifetime, and that is at most four times sent. */
  lemma {:induction false} CountersCountTransmissions(events: seq<Event>)
    ensures var c := Run(events).0.counters;
      |Lifetime(events)| == c.sent + c.retried <= 4 * c.sent
  {
    RetryBudget(events);
    if events != [] {
      var before, e := events[..|events| - 1], events[|events| - 1];
      CountersCountTransmissions(before);
      if Enabled(Run(before).0, e) {
        StepCounts(Run(before).0, e);
      }
    }
  }

  // ── One message at a time ───────────────────────────────────────────

  /** The requests for push i since it last left the queue or the process started. */
  ghost function Burst(events: seq<Event>, i: nat): seq<ChatRequest> {
    if events == [] then []
    else
      var before, e := events[..|events| - 1], events[|events| - 1];
      var (s, l) := Run(before);
      if !Enabled(s, e) || |l.msgs| <= i then Burst(before, i)
      else BurstAfter(Burst(before, i), s, l, e, i)
  }

  ghost function BurstAfter(burst: seq<ChatRequest>, s: Outbox, l: Ledger, e: Event, i: nat): seq<ChatRequest>
    requires Enabled(s, e) && i < |l.msgs|
  {
    if e.Restart? then FlightAfter([], s, l, e, i) else FlightAfter(burst, s, l, e, i)
  }

  /** The first request id a step may use. */
  function FirstId(s: Outbox, e: Event): nat {
    if e.Restart? then e.firstRequest else s.nextRequest
  }

  ghost predicate Counted(sent: seq<Transmission>, first: nat) {
    forall j :: 0 <= j < |sent| ==> sent[j].id == first + j
  }

  lemma {:induction false} ResentIds(next: nat, rows: seq<StoredPending>, now: i64)
    requires next + |rows| <= TWO_TO_THE_64
    ensures Counted(ResentAll(next, rows, now), next)
    decreases |rows|
  {
    if rows != [] {
      ResentIds(if rows[0].ttl < now then next else next + 1, rows[1..], now);
    }
  }

  lemma SentIds(s: Outbox, e: Event)
    requires Enabled(s, e)
    ensures Counted(Sent(s, e), FirstId(s, e))
  {
    if e.Restart? {
      ResentIds(e.firstRequest, LoadedAll(s.table, e.keys), e.now);
    }
  }

  lemma {:induction false} UnderCounted(sent: seq<Transmission>, first: nat, id: u64)
    requires Counted(sent, first)
    ensures |Under(sent, id)| == if first <= id < first + |sent| then 1 else 0
  {
    if sent != [] {
      assert forall j :: 0 <= j < |sent| - 1 ==> sent[1..][j] == sent[j + 1];
      UnderCounted(sent[1..], first + 1, id);
    }
  }

  /** An entry after a step: new under a new id, with no retries or one more than its
      predecessor, or the very one that was there. */
  ghost predicate Progresses(s: Outbox, s': Outbox, e: Event, p: Place, p': Place)
    requires Enabled(s, e) && p'.InFlight?
  {
    && p'.id in s'.tracker
    && (p.InFlight? ==> p.id in s.tracker)
    && var retries := s'.tracker[p'.id].retries;
       if FirstId(s, e) <= p'.id < FirstId(s, e) + |Sent(s, e)| then
         retries == if p.InFlight? && !e.Restart? then s.tracker[p.id].retries + 1 else 0
       else
         p == p' && !e.Restart? && retries == s.tracker[p.id].retries
  }

  lemma {:induction false} DepartedIds(
    msgs: seq<Logical>, s: Outbox, rows: seq<MessageRow>, peer: string, from: string, now: i64, msgIds: seq<u64>,
      i: nat)
    requires |msgIds| == |rows| && s.nextRequest + |rows| <= TWO_TO_THE_64 && i < |msgs|
    ensures var msgs' := DepartedAll(msgs, s, rows, peer, from, now, msgIds);
      && |msgs'| == |msgs|
      && (msgs'[i].place == msgs[i].place
          || (msgs[i].place.Queued? && msgs'[i].place.InFlight?
              && s.nextRequest <= msgs'[i].place.id < s.nextRequest + |rows|))
    decreases |rows|
  {
    if rows != [] {
      var mv := Depart(rows[0].id, s.nextRequest, Wire(from, msgIds[0], s.seqCounter, now));
      DepartedIds(Moved(msgs, mv), FlushedOne(s, rows[0], peer, from, now, msgIds[0]), rows[1..],
                  peer, from, now, msgIds[1..], i);
    }
  }

  lemma {:induction false} FlushedIsNew(
    s: Outbox, rows: seq<MessageRow>, peer: string, from: string, now: i64, msgIds: seq<u64>, id: u64)
    requires |msgIds| == |rows| && s.nextRequest + |rows| <= TWO_TO_THE_64
    requires s.nextRequest <= id && id !in s.tracker && id in FlushedAll(s, rows, peer, from, now, msgIds).tracker
    ensures FlushedAll(s, rows, peer, from, now, msgIds).tracker[id].retries == 0
    decreases |rows|
  {
    if rows != [] {
      var s' := FlushedOne(s, rows[0], peer, from, now, msgIds[0]);
      if id == s.nextRequest {
        FlushedFirstStays(s', rows[1..], peer, from, now, msgIds[1..], id);
      } else {
        FlushedIsNew(s', rows[1..], peer, from, now, msgIds[1..], id);
      }
    }
  }

  lemma {:induction false} FlushedFirstStays(
    s: Outbox, rows: seq<MessageRow>, peer: string, from: string, now: i64, msgIds: seq<u64>, id: u64)
    requires |msgIds| == |rows| && s.nextRequest + |rows| <= TWO_TO_THE_64 && id in s.tracker && id < s.nextRequest
    ensures var s' := FlushedAll(s, rows, peer, from, now, msgIds); id in s'.tracker && s'.tracker[id] == s.tracker[id]
    decreases |rows|
  {
    if rows != [] {
      FlushedFirstStays(FlushedOne(s, rows[0], peer, from, now, msgIds[0]), rows[1..], peer, from, now, msgIds[1..],
        id);
    }
  }

  // Each of these speaks of one place before and after, without the ledger.

  lemma FlushProgresses(s: Outbox, s': Outbox, e: Event, p: Place, p': Place, n: nat)
    requires e.Connected? && Enabled(s, e) && s' == Step(s, e) && IdsIssued(s) && n == |Sent(s, e)|
    requires p'.InFlight? && p'.id in s'.tracker && (p.InFlight? ==> p.id in s.tracker)
    requires p' == p || (p.Queued? && s.nextRequest <= p'.id < s.nextRequest + n)
    ensures Progresses(s, s', e, p, p')
  {
    var rows := PendingFor(s.messages, e.peer, e.now);
    assert s' == FlushedAll(s, rows, e.peer, e.from, e.now, e.msgIds);
    if p' == p {
      FlushedFirstStays(s, rows, e.peer, e.from, e.now, e.msgIds, p.id);
    } else {
      assert p'.id !in s.tracker;
      FlushedIsNew(s, rows, e.peer, e.from, e.now, e.msgIds, p'.id);
    }
  }

  lemma RetryProgresses(s: Outbox, s': Outbox, e: Event, p: Place, p': Place)
    requires e.SendFailed? && Enabled(s, e) && e.id in s.tracker && MayRetry(s.tracker[e.id])
    requires s' == Retried(s, e.id, e.peer, e.now) && IdsIssued(s) && (p.InFlight? ==> p.id in s.tracker)
    requires p'.InFlight? && p' == Relocated(p, Resend(e.id, s.nextRequest))
    ensures Progresses(s, s', e, p, p')
  {
    assert |Sent(s, e)| == 1;
  }

  /** Nothing is sent, and the entry stays. */
  lemma QuietProgresses(s: Outbox, s': Outbox, e: Event, p: Place)
    requires Enabled(s, e) && Sent(s, e) == [] && !e.Restart?
    requires p.InFlight? && p.id in s.tracker && p.id in s'.tracker && s'.tracker[p.id] == s.tracker[p.id]
    ensures Progresses(s, s', e, p, p)
  {
  }

  lemma RestartProgresses(s: Outbox, s': Outbox, e: Event, p: Place, p': Place)
    requires e.Restart? && Enabled(s, e) && s' == Step(s, e)
    requires p'.InFlight? && p'.id in s'.tracker && (p.InFlight? ==> p.id in s.tracker)
    ensures Progresses(s, s', e, p, p')
  {
    RestartedAt(Rebooted(s, e.firstRequest), LoadedAll(s.table, e.keys), e.now, p'.id);
  }

  /** Recovery from an empty tracker: every entry is new and without retries. */
  lemma RestartedAt(base: Outbox, rows: seq<StoredPending>, now: i64, id: u64)
    requires base.tracker == map[] && base.nextRequest + |rows| <= TWO_TO_THE_64
    requires id in RecoveredAll(base, rows, now).tracker
    ensures RecoveredAll(base, rows, now).tracker[id].retries == 0
    ensures base.nextRequest <= id < base.nextRequest + |ResentAll(base.nextRequest, rows, now)|
  {
    var live, s' := Filter(rows, Persistence.Unexpired(now)), RecoveredAll(base, rows, now);
    Persistence.RecoveryRetracksEachOnce(base, rows, now);
    RecoveryCounts(base, rows, now);
    assert Persistence.RetrackedAt(s'.tracker, base.nextRequest, id - base.nextRequest, live);
  }

  // What a step does to one place.

  lemma FlushedPlace(s: Outbox, l: Ledger, e: Event, i: nat)
    requires e.Connected? && Enabled(s, e) && i < |l.msgs|
    ensures i < |Follow(s, l, e).msgs|
    ensures var p, p' := l.msgs[i].place, Follow(s, l, e).msgs[i].place;
      p' == p || (p.Queued? && p'.InFlight? && s.nextRequest <= p'.id < s.nextRequest + |Sent(s, e)|)
  {
    DepartedIds(l.msgs, s, PendingFor(s.messages, e.peer, e.now), e.peer, e.from, e.now, e.msgIds, i);
  }

  lemma RetriedPlace(s: Outbox, l: Ledger, e: Event, i: nat)
    requires e.SendFailed? && Enabled(s, e) && i < |l.msgs| && e.id in s.tracker && MayRetry(s.tracker[e.id])
    ensures i < |Follow(s, l, e).msgs|
    ensures Follow(s, l, e).msgs[i].place == Relocated(l.msgs[i].place, Resend(e.id, s.nextRequest))
    ensures Step(s, e) == Retried(s, e.id, e.peer, e.now)
  {
  }

  /** No flight begins or moves, and the entries of those that go on stay. */
  ghost predicate IsQuiet(s: Outbox, e: Event) {
    e.Enqueue? || e.AckReceived? || e.Tick?
    || (e.SendFailed? && (e.id in s.tracker ==> !MayRetry(s.tracker[e.id])))
  }

  lemma QuietPlace(s: Outbox, l: Ledger, e: Event, i: nat)
    requires IsQuiet(s, e) && Enabled(s, e) && i < |l.msgs| && i < |Follow(s, l, e).msgs|
    requires Follow(s, l, e).msgs[i].place.InFlight?
    ensures Follow(s, l, e).msgs[i].place == l.msgs[i].place
  {
  }

  lemma QuietEntry(s: Outbox, e: Event, id: u64)
    requires IsQuiet(s, e) && Enabled(s, e) && id in s.tracker && id in Step(s, e).tracker
    ensures Step(s, e).tracker[id] == s.tracker[id] && Sent(s, e) == []
  {
  }

  lemma StepProgresses(s: Outbox, l: Ledger, e: Event, i: nat, s': Outbox, p: Place, p': Place)
    requires Enabled(s, e) && Healthy(s, l) && i < |l.msgs| && i < |Follow(s, l, e).msgs|
    requires s' == Step(s, e) && p == l.msgs[i].place && p' == Follow(s, l, e).msgs[i].place && p'.InFlight?
    ensures Progresses(s, s', e, p, p')
  {
    StepTracks(s, l, e, i);
    TrackedAt(s, l, i);
    if e.Connected? {
      FlushedPlace(s, l, e, i);
      FlushProgresses(s, s', e, p, p', |Sent(s, e)|);
    } else if e.Restart? {
      RestartProgresses(s, s', e, p, p');
    } else if IsQuiet(s, e) {
      QuietPlace(s, l, e, i);
      QuietEntry(s, e, p.id);
      QuietProgresses(s, s', e, p);
    } else {
      RetriedPlace(s, l, e, i);
      RetryProgresses(s, s', e, p, p');
    }
  }

  /** While in flight a message has been sent once more than it was retried. */
  ghost predicate InBudget(burst: seq<ChatRequest>, m: Logical, tracker: InFlightMap) {
    && |burst| <= 1 + MAX_RETRIES
    && (m.place.InFlight? ==> m.place.id in tracker && |burst| == 1 + tracker[m.place.id].retries)
  }

  lemma NotInFlightSendsNothing(burst: seq<ChatRequest>, s: Outbox, l: Ledger, e: Event, i: nat)
    requires Enabled(s, e) && i < |l.msgs| && i < |Follow(s, l, e).msgs| && !Follow(s, l, e).msgs[i].place.InFlight?
    ensures BurstAfter(burst, s, l, e, i) == if e.Restart? then [] else burst
  {
    FlightAfterElse(if e.Restart? then [] else burst, s, l, e, i);
  }

  lemma RetriesAreBounded(s: Outbox, l: Ledger, id: u64)
    requires Healthy(s, l) && id in s.tracker
    ensures s.tracker[id].retries <= MAX_RETRIES
  {
  }

  lemma StepStaysInBudget(burst: seq<ChatRequest>, s: Outbox, l: Ledger, e: Event, i: nat)
    requires Enabled(s, e) && Healthy(s, l) && i < |l.msgs| && InBudget(burst, l.msgs[i], s.tracker)
    ensures i < |Follow(s, l, e).msgs|
    ensures InBudget(BurstAfter(burst, s, l, e, i), Follow(s, l, e).msgs[i], Step(s, e).tracker)
  {
    IdentityIsStable(s, l, e, i);
    var m, m' := l.msgs[i], Follow(s, l, e).msgs[i];
    if m'.place.InFlight? {
      var sent := Under(Sent(s, e), m'.place.id);
      StepProgresses(s, l, e, i, Step(s, e), m.place, m'.place);
      SentIds(s, e);
      UnderCounted(Sent(s, e), FirstId(s, e), m'.place.id);
      FlightAfterInFlight(if e.Restart? then [] else burst, s, l, e, i, m, m', sent);
      StepIsHealthy(s, l, e);
      RetriesAreBounded(Step(s, e), Follow(s, l, e), m'.place.id);
    } else {
      NotInFlightSendsNothing(burst, s, l, e, i);
    }
  }

  lemma {:induction false} NoBurstBeforePush(events: seq<Event>, i: nat)
    requires |Run(events).1.msgs| <= i
    ensures Burst(events, i) == []
  {
    if events != [] {
      var before, e := events[..|events| - 1], events[|events| - 1];
      EveryRunConserves(before);
      if Enabled(Run(before).0, e) && i < |Run(before).1.msgs| {
        IdentityIsStable(Run(before).0, Run(before).1, e, i);
      }
      NoBurstBeforePush(before, i);
    }
  }

  /** Over every run and for every push: within one process lifetime a flight is put on
      the wire at most four times, and exactly once more than its entry counts retries. */
  lemma {:induction false} FlightIsInBudget(events: seq<Event>, i: nat)
    requires i < |Run(events).1.msgs|
    ensures InBudget(Burst(events, i), Run(events).1.msgs[i], Run(events).0.tracker)
  {
    if events != [] {
      var before, e := events[..|events| - 1], events[|events| - 1];
      var s, l := Run(before).0, Run(before).1;
      EveryRunConserves(before);
      if |l.msgs| <= i {
        NoBurstBeforePush(before, i);
        NewPushIsQueued(s, l, e, i);
      } else {
        FlightIsInBudget(before, i);
        if Enabled(s, e) {
          StepStaysInBudget(Burst(before, i), s, l, e, i);
        }
      }
    }
  }

  /** Where a failure leads from the place of the message it concerns. */
  lemma FailedPlace(s: Outbox, l: Ledger, e: Event, i: nat)
    requires e.SendFailed? && Enabled(s, e) && i < |l.msgs| && e.id in s.tracker
    requires l.msgs[i].place.InFlight? && l.msgs[i].place.id == e.id
    ensures i < |Follow(s, l, e).msgs|
    ensures var p' := Follow(s, l, e).msgs[i].place;
      if s.tracker[e.id].retries + 1 <= 3 then p'.InFlight? else p'.Queued?
  {
  }

  /** When a send fails: a flight that was put on the wire fewer than four times in this
      lifetime goes on, one that was put there four times returns to the queue. */
  lemma HandOffAfterFour(events: seq<Event>, e: Event, i: nat)
    requires i < |Run(events).1.msgs| && e.SendFailed? && Enabled(Run(events).0, e)
    requires Run(events).1.msgs[i].place.InFlight? && Run(events).1.msgs[i].place.id == e.id
    ensures i < |Follow(Run(events).0, Run(events).1, e).msgs|
    ensures 1 <= |Burst(events, i)| <= 4
    ensures var p' := Follow(Run(events).0, Run(events).1, e).msgs[i].place;
      (p'.InFlight? <==> |Burst(events, i)| < 4) && (p'.Queued? <==> |Burst(events, i)| == 4)
  {
    FlightIsInBudget(events, i);
    FailedPlace(Run(events).0, Run(events).1, e, i);
  }
}
