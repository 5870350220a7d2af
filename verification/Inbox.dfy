/** The receive arm of the daemon: every request goes through the sequence
    tracker, and every message that falls out goes through the replay filter. */
module Inbox {
  import opened Base
  import opened Chat
  import opened Sequence
  import Dedup

  /** The in-memory receive state; accepted is the history behind the replay filter. */
  datatype State = State(tracker: Tracker, accepted: seq<u64>, duplicates: nat)

  const FRESH := State(EMPTY, [], 0)

  /** Which messages of a batch, met in order, are processed. */
  function Admitted(accepted: seq<u64>, batch: seq<ChatRequest>): (processed: seq<ChatRequest>)
    ensures |processed| <= |batch|
    decreases |batch|
  {
    if batch == [] then []
    else if batch[0].msgId in Dedup.Window(accepted) then Admitted(accepted, batch[1..])
    else [batch[0]] + Admitted(accepted + [batch[0].msgId], batch[1..])
  }

  function Ids(msgs: seq<ChatRequest>): seq<u64> {
    seq(|msgs|, i requires 0 <= i < |msgs| => msgs[i].msgId)
  }

  /** What one event delivers, before the replay filter. */
  function DeliveredBy(s: State, e: Event): seq<ChatRequest> {
    if e.Arrive? then Deliveries(s.tracker, e.peer, e.msg) else []
  }

  /** What one event makes the daemon process. */
  function ProcessedBy(s: State, e: Event): seq<ChatRequest> {
    Admitted(s.accepted, DeliveredBy(s, e))
  }

  function Received(s: State, e: Event): State {
    var delivered, processed := DeliveredBy(s, e), ProcessedBy(s, e);
    State(Step(s.tracker, e), s.accepted + Ids(processed), s.duplicates + (|delivered| - |processed|))
  }

  function ReceivedAll(events: seq<Event>): State {
    if events == [] then FRESH else Received(ReceivedAll(events[..|events| - 1]), events[|events| - 1])
  }

  // ── Logs of a whole run ─────────────────────────────────────────────

  /** A delivered message, with the connection epoch of its sender. */
  datatype Delivery = Delivery(peer: string, epoch: nat, msg: ChatRequest)

  function Stamped(peer: string, epoch: nat, msgs: seq<ChatRequest>): seq<Delivery> {
    seq(|msgs|, i requires 0 <= i < |msgs| => Delivery(peer, epoch, msgs[i]))
  }

  function Messages(log: seq<Delivery>): seq<ChatRequest> {
    seq(|log|, i requires 0 <= i < |log| => log[i].msg)
  }

  /** How often peer has (re)connected. */
  function Epoch(events: seq<Event>, peer: string): nat {
    if events == [] then 0
    else
      var e := events[|events| - 1];
      Epoch(events[..|events| - 1], peer) + if e == Reset(peer) then 1 else 0
  }

  /** Everything delivered in a run, in order. */
  function DeliveryLog(events: seq<Event>): seq<Delivery> {
    if events == [] then []
    else
      var before, e := events[..|events| - 1], events[|events| - 1];
      DeliveryLog(before) + Stamped(e.peer, Epoch(before, e.peer), DeliveredBy(ReceivedAll(before), e))
  }

  /** Everything processed in a run, in order. */
  function ProcessedLog(events: seq<Event>): seq<Delivery> {
    if events == [] then []
    else
      var before, e := events[..|events| - 1], events[|events| - 1];
      ProcessedLog(before) + Stamped(e.peer, Epoch(before, e.peer), ProcessedBy(ReceivedAll(before), e))
  }

  /** Reference filter: keep an entry unless its id is among the last 10,000 kept ones. */
  function Unseen(log: seq<Delivery>): seq<Delivery> {
    if log == [] then []
    else
      var kept, d := Unseen(log[..|log| - 1]), log[|log| - 1];
      if d.msg.msgId in Dedup.Window(Ids(Messages(kept))) then kept else kept + [d]
  }

  /** Admission of a batch, one message at a time. */
  lemma AdmitOne(accepted: seq<u64>, processed: seq<ChatRequest>, m: ChatRequest, rest: seq<ChatRequest>,
                 accepted': seq<u64>, processed': seq<ChatRequest>)
    requires accepted' == Dedup.Asked(accepted, m.msgId)
    requires processed' == if m.msgId in Dedup.Window(accepted) then processed else processed + [m]
    ensures processed + Admitted(accepted, [m] + rest) == processed' + Admitted(accepted', rest)
    ensures Ids(processed') == Ids(processed) + if m.msgId in Dedup.Window(accepted) then [] else [m.msgId]
  {
    assert ([m] + rest)[1..] == rest;
    Associative(processed, [m], Admitted(accepted', rest));
  }

  lemma IdsAppend(log: seq<Delivery>, more: seq<Delivery>)
    ensures Ids(Messages(log + more)) == Ids(Messages(log)) + Ids(Messages(more))
  {
  }

  lemma StampedIds(peer: string, epoch: nat, msgs: seq<ChatRequest>)
    ensures Ids(Messages(Stamped(peer, epoch, msgs))) == Ids(msgs)
  {
  }

  lemma StampedCons(peer: string, epoch: nat, msg: ChatRequest, rest: seq<ChatRequest>)
    ensures Stamped(peer, epoch, [msg] + rest) == [Delivery(peer, epoch, msg)] + Stamped(peer, epoch, rest)
  {
  }

  lemma UnseenSnoc(log: seq<Delivery>, d: Delivery)
    ensures Unseen(log + [d])
         == if d.msg.msgId in Dedup.Window(Ids(Messages(Unseen(log)))) then Unseen(log) else Unseen(log) + [d]
  {
    assert (log + [d])[..|log|] == log;
  }

  lemma KeptGrows(kept: seq<Delivery>, d: Delivery)
    ensures Ids(Messages(kept + [d])) == Ids(Messages(kept)) + [d.msg.msgId]
  {
    IdsAppend(kept, [d]);
    assert Ids(Messages([d])) == [d.msg.msgId];
  }

  lemma LogGrows(log: seq<Delivery>, peer: string, epoch: nat, batch: seq<ChatRequest>)
    requires batch != []
    ensures log + Stamped(peer, epoch, batch)
         == log + [Delivery(peer, epoch, batch[0])] + Stamped(peer, epoch, batch[1..])
  {
    assert batch == [batch[0]] + batch[1..];
    StampedCons(peer, epoch, batch[0], batch[1..]);
  }

  lemma AdmittedStamped(kept: seq<Delivery>, peer: string, epoch: nat, batch: seq<ChatRequest>)
    requires batch != []
    ensures var accepted, d, rest := Ids(Messages(kept)), Delivery(peer, epoch, batch[0]), batch[1..];
      kept + Stamped(peer, epoch, Admitted(accepted, batch))
        == if batch[0].msgId in Dedup.Window(accepted) then kept + Stamped(peer, epoch, Admitted(accepted, rest))
           else kept + [d] + Stamped(peer, epoch, Admitted(accepted + [batch[0].msgId], rest))
  {
    var accepted := Ids(Messages(kept));
    if batch[0].msgId !in Dedup.Window(accepted) {
      StampedCons(peer, epoch, batch[0], Admitted(accepted + [batch[0].msgId], batch[1..]));
    }
  }

  /** Filtering a batch on top of a filtered history filters the concatenation. */
  lemma {:induction false} AdmittedIsUnseen(log: seq<Delivery>, peer: string, epoch: nat, batch: seq<ChatRequest>)
    ensures Unseen(log + Stamped(peer, epoch, batch))
         == Unseen(log) + Stamped(peer, epoch, Admitted(Ids(Messages(Unseen(log))), batch))
    decreases |batch|
  {
    var kept := Unseen(log);
    var accepted := Ids(Messages(kept));
    if batch == [] {
      assert log + Stamped(peer, epoch, batch) == log;
    } else {
      var d, rest := Delivery(peer, epoch, batch[0]), batch[1..];
      LogGrows(log, peer, epoch, batch);
      AdmittedIsUnseen(log + [d], peer, epoch, rest);
      UnseenSnoc(log, d);
      AdmittedStamped(kept, peer, epoch, batch);
      KeptGrows(kept, d);
    }
  }

  lemma IdsShift(accepted: seq<u64>, m: ChatRequest, rest: seq<ChatRequest>)
    ensures accepted + [m.msgId] + Ids(rest) == accepted + Ids([m] + rest)
  {
  }

  lemma {:induction false} AdmittedKeepsSpacing(accepted: seq<u64>, batch: seq<ChatRequest>)
    requires Dedup.Spaced(accepted)
    ensures Dedup.Spaced(accepted + Ids(Admitted(accepted, batch)))
    decreases |batch|
  {
    if batch == [] {
      assert accepted + Ids([]) == accepted;
    } else if batch[0].msgId in Dedup.Window(accepted) {
      AdmittedKeepsSpacing(accepted, batch[1..]);
    } else {
      var id := batch[0].msgId;
      Dedup.AskedKeepsSpacing(accepted, id);
      AdmittedKeepsSpacing(accepted + [id], batch[1..]);
      IdsShift(accepted, batch[0], Admitted(accepted + [id], batch[1..]));
    }
  }

  /** The receive arm over a whole run, reconnect resets included: what is processed
      is the reference-filtered concatenation of everything delivered, the filter's
      history is the list of processed ids, the duplicate counter counts the rest, and
      two messages processed under one id have 10,000 others between them. */
  lemma {:induction false} ProcessedIsFilteredDelivery(events: seq<Event>)
    ensures ReceivedAll(events).tracker == Run(events)
    ensures ProcessedLog(events) == Unseen(DeliveryLog(events))
    ensures ReceivedAll(events).accepted == Ids(Messages(ProcessedLog(events)))
    ensures ReceivedAll(events).duplicates == |DeliveryLog(events)| - |ProcessedLog(events)|
    ensures Dedup.Spaced(Ids(Messages(ProcessedLog(events))))
  {
    if events != [] {
      var before, e := events[..|events| - 1], events[|events| - 1];
      ProcessedIsFilteredDelivery(before);
      var s := ReceivedAll(before);
      AdmittedIsUnseen(DeliveryLog(before), e.peer, Epoch(before, e.peer), DeliveredBy(s, e));
      AdmittedKeepsSpacing(s.accepted, DeliveredBy(s, e));
      var added := Stamped(e.peer, Epoch(before, e.peer), ProcessedBy(s, e));
      IdsAppend(ProcessedLog(before), added);
      StampedIds(e.peer, Epoch(before, e.peer), ProcessedBy(s, e));
    }
  }

  /** A delivered message that is skipped carries the id of one processed earlier. */
  lemma SkippedWasProcessed(log: seq<Delivery>, i: nat)
    requires i < |log|
    ensures Unseen(log[..i + 1]) == Unseen(log[..i]) + [log[i]]
         || exists d :: d in Unseen(log[..i]) && d.msg.msgId == log[i].msg.msgId
  {
    assert log[..i + 1][..i] == log[..i];
    var kept := Unseen(log[..i]);
    var ids := Ids(Messages(kept));
    if log[i].msg.msgId in Dedup.Window(ids) {
      assert log[i].msg.msgId in ids;
      var j :| 0 <= j < |ids| && ids[j] == log[i].msg.msgId;
      assert kept[j] in kept;
    }
  }

  // ── Ordering within a connection epoch ──────────────────────────────

  ghost predicate Increasing(log: seq<Delivery>) {
    forall i, j :: 0 <= i < j < |log| && log[i].peer == log[j].peer && log[i].epoch == log[j].epoch
      ==> log[i].msg.seqNo < log[j].msg.seqNo
  }

  lemma IncreasingAppend(log: seq<Delivery>, batch: seq<Delivery>)
    requires Increasing(log) && Increasing(batch)
    requires forall d, d' ::
      d in log && d' in batch && d.peer == d'.peer && d.epoch == d'.epoch ==> d.msg.seqNo < d'.msg.seqNo
    ensures Increasing(log + batch)
  {
    var all := log + batch;
    forall i, j | 0 <= i < j < |all| && all[i].peer == all[j].peer && all[i].epoch == all[j].epoch
      ensures all[i].msg.seqNo < all[j].msg.seqNo
    {
      if i < |log| <= j {
        assert all[i] in log && all[j] in batch;
      } else if j < |log| {
        assert all[i] == log[i] && all[j] == log[j];
      } else {
        assert all[i] == batch[i - |log|] && all[j] == batch[j - |log|];
      }
    }
  }

  lemma LastExceeds(log: seq<Delivery>)
    requires log != [] && Increasing(log)
    ensures var before, d := log[..|log| - 1], log[|log| - 1];
      forall d' :: d' in before && d'.peer == d.peer && d'.epoch == d.epoch ==> d'.msg.seqNo < d.msg.seqNo
    ensures Increasing(log[..|log| - 1])
  {
    var before := log[..|log| - 1];
    assert forall i :: 0 <= i < |before| ==> before[i] == log[i];
  }

  lemma {:induction false} UnseenKeepsIncrease(log: seq<Delivery>)
    requires Increasing(log)
    ensures Increasing(Unseen(log))
    ensures forall d :: d in Unseen(log) ==> d in log
  {
    if log != [] {
      var before, d := log[..|log| - 1], log[|log| - 1];
      UnseenKeepsIncrease(before);
      LastExceeds(log);
      IncreasingAppend(Unseen(before), [d]);
      assert forall x :: x in log <==> x in before || x == d;
    }
  }

  /** Deliveries made by one arrival are numbered last + 1, last + 2, ... */
  lemma BatchNumbers(t: Tracker, peer: string, msg: ChatRequest, arrived: set<ChatRequest>, delivered: seq<ChatRequest>)
    requires InOrder(t.LastOf(peer), t.BufferOf(peer), arrived, delivered)
    ensures var batch := Deliveries(t, peer, msg);
      && (forall i :: 0 <= i < |batch| ==> batch[i].seqNo == t.LastOf(peer) + i + 1)
      && Ingested(t, peer, msg).LastOf(peer) == t.LastOf(peer) + |batch|
  {
    IngestKeepsOrder(t, peer, msg, arrived, delivered);
    var batch := Deliveries(t, peer, msg);
    forall i | 0 <= i < |batch|
      ensures batch[i].seqNo == t.LastOf(peer) + i + 1
    {
      assert (delivered + batch)[|delivered| + i] == batch[i];
    }
  }

  /** A delivery is of this epoch or an earlier one, and then not beyond the last. */
  predicate UpToDate(d: Delivery, epoch: nat, last: nat) {
    d.epoch <= epoch && (d.epoch == epoch ==> d.msg.seqNo <= last)
  }

  ghost predicate Current(log: seq<Delivery>, events: seq<Event>) {
    forall d :: d in log ==> UpToDate(d, Epoch(events, d.peer), Run(events).LastOf(d.peer))
  }

  /** Another event ends an epoch or moves the last number up. */
  lemma LogStaysCurrent(log: seq<Delivery>, events: seq<Event>)
    requires events != [] && Current(log, events[..|events| - 1])
    ensures Current(log, events)
  {
  }

  /** What the last event adds to the delivery log. */
  function LastBatch(events: seq<Event>): seq<Delivery>
    requires events != []
  {
    var before, e := events[..|events| - 1], events[|events| - 1];
    Stamped(e.peer, Epoch(before, e.peer), DeliveredBy(ReceivedAll(before), e))
  }

  /** The last event's batch is consecutive and beyond everything before it. */
  lemma LastBatchFollows(events: seq<Event>, log: seq<Delivery>)
    requires events != [] && Current(log, events[..|events| - 1])
    ensures Increasing(LastBatch(events)) && Current(LastBatch(events), events)
    ensures forall d, d' :: d in log && d' in LastBatch(events) && d.peer == d'.peer && d.epoch == d'.epoch
              ==> d.msg.seqNo < d'.msg.seqNo
  {
    var before, e := events[..|events| - 1], events[|events| - 1];
    ProcessedIsFilteredDelivery(before);
    DeliveryIsInOrder(before, e.peer);
    if e.Arrive? {
      BatchNumbers(Run(before), e.peer, e.msg, Arrivals(before, e.peer), DeliveredTo(before, e.peer));
    }
  }

  lemma {:induction false} DeliveriesIncrease(events: seq<Event>)
    ensures Increasing(DeliveryLog(events)) && Current(DeliveryLog(events), events)
  {
    if events != [] {
      var log := DeliveryLog(events[..|events| - 1]);
      DeliveriesIncrease(events[..|events| - 1]);
      LastBatchFollows(events, log);
      LogStaysCurrent(log, events);
      IncreasingAppend(log, LastBatch(events));
      assert DeliveryLog(events) == log + LastBatch(events);
    }
  }

  /** Over every run: within one connection epoch the sequence numbers processed
      from a peer strictly increase. */
  lemma ProcessedIncreases(events: seq<Event>)
    ensures Increasing(ProcessedLog(events))
  {
    DeliveriesIncrease(events);
    ProcessedIsFilteredDelivery(events);
    UnseenKeepsIncrease(DeliveryLog(events));
  }

  /** Messages numbered beyond the first are admitted after it, under other numbers. */
  lemma {:induction false} AdmittedMembers(accepted: seq<u64>, batch: seq<ChatRequest>)
    ensures forall m :: m in Admitted(accepted, batch) ==> m in batch
    decreases |batch|
  {
    if batch != [] {
      AdmittedMembers(accepted, batch[1..]);
      AdmittedMembers(accepted + [batch[0].msgId], batch[1..]);
    }
  }

  /** An arriving message is processed at once exactly if it is the next of its peer and
      its id is none of the last 10,000 processed ones. */
  lemma ProcessedAtArrivalIff(s: State, peer: string, m: ChatRequest)
    requires WellNumbered(s.tracker)
    ensures m in ProcessedBy(s, Arrive(peer, m))
       <==> m.seqNo == s.tracker.LastOf(peer) + 1 && m.msgId !in Dedup.Window(s.accepted)
  {
    var batch := Deliveries(s.tracker, peer, m);
    DeliveredAtArrival(s.tracker, peer, m);
    AdmittedMembers(s.accepted, batch);
    if m in batch {
      assert m !in batch[1..] by {
        assert forall i :: 0 <= i < |batch| - 1 ==> batch[1..][i] == batch[i + 1];
      }
      AdmittedMembers(s.accepted, batch[1..]);
    }
  }

  /** In every run: every request is acknowledged, but it is processed at its arrival
      exactly if it is the next of its peer since the last reset and its id is none of
      the last 10,000 processed ones. */
  lemma AcknowledgedIsProcessedIff(events: seq<Event>, peer: string, m: ChatRequest)
    ensures m in ProcessedBy(ReceivedAll(events), Arrive(peer, m))
       <==> && m.seqNo == Run(events).LastOf(peer) + 1
            && m.msgId !in Dedup.Window(Ids(Messages(ProcessedLog(events))))
  {
    RunIsWellNumbered(events);
    ProcessedIsFilteredDelivery(events);
    ProcessedAtArrivalIff(ReceivedAll(events), peer, m);
  }

  /** Ad-hoc sends carry number 0: in no run is such a message delivered, at its arrival
      or later. */
  lemma {:induction false} AdHocIsNeverDelivered(events: seq<Event>)
    ensures forall d :: d in DeliveryLog(events) ==> d.msg.seqNo != 0
  {
    if events != [] {
      var before, e := events[..|events| - 1], events[|events| - 1];
      AdHocIsNeverDelivered(before);
      ProcessedIsFilteredDelivery(before);
      DeliveryIsInOrder(before, e.peer);
      if e.Arrive? {
        BatchNumbers(Run(before), e.peer, e.msg, Arrivals(before, e.peer), DeliveredTo(before, e.peer));
      }
    }
  }
}
