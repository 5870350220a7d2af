/** One node's flush meets another node's sequence tracker. */
module EndToEnd {
  import opened Base
  import opened Chat
  import opened MessageQueue
  import opened Outbox
  import S = Sequence

  // ── Any flush, any other traffic ────────────────────────────────────

  /** Since the connection reset every request of the flush has arrived, retried copies
      included, and nothing else with one of their numbers. */
  ghost predicate Flooded(events: seq<S.Event>, sender: string, sent: seq<Transmission>) {
    && (forall i :: 0 <= i < |sent| ==> sent[i].request.seqNo in S.SeqNos(S.Arrivals(events, sender)))
    && (forall m, i :: m in S.Arrivals(events, sender) && 0 <= i < |sent| && m.seqNo == sent[i].request.seqNo
          ==> Copy(m, sent[i].request))
  }

  /** A copy of the request has been delivered. */
  ghost predicate Delivered(events: seq<S.Event>, sender: string, r: ChatRequest) {
    exists m :: m in S.DeliveredTo(events, sender) && Copy(m, r)
  }

  ghost predicate AllDelivered(events: seq<S.Event>, sender: string, sent: seq<Transmission>) {
    forall i :: 0 <= i < |sent| ==> Delivered(events, sender, sent[i].request)
  }

  /** Numbered consecutively from first on, without wrapping around. */
  ghost predicate Consecutive(sent: seq<Transmission>, first: u64) {
    forall i :: 0 <= i < |sent| ==> sent[i].request.seqNo == first + i
  }

  lemma FlushIsConsecutive(s: Outbox, rows: seq<MessageRow>, peer: string, from: string, now: i64, msgIds: seq<u64>)
    requires |msgIds| == |rows| && s.nextRequest + |rows| <= TWO_TO_THE_64 && s.seqCounter + |rows| <= TWO_TO_THE_64
    ensures Consecutive(FlushSent(s, rows, peer, from, now, msgIds), s.seqCounter)
  {
  }

  lemma DeliveredIffNumberIs(events: seq<S.Event>, sender: string, sent: seq<Transmission>, i: nat)
    requires Flooded(events, sender, sent) && i < |sent|
    ensures Delivered(events, sender, sent[i].request)
       <==> 1 <= sent[i].request.seqNo && S.AllArrived(S.SeqNos(S.Arrivals(events, sender)), sent[i].request.seqNo)
  {
    var n := sent[i].request.seqNo;
    S.DeliveredIffAllArrived(events, sender, n);
    S.DeliveryIsInOrder(events, sender);
    if m :| m in S.DeliveredTo(events, sender) && m.seqNo == n {
      assert Copy(m, sent[i].request);
    }
  }

  /** The requests themselves fill the numbers from first on. */
  lemma FillsUp(numbers: set<u64>, sent: seq<Transmission>, first: u64, i: nat)
    requires 1 <= first && Consecutive(sent, first) && i < |sent|
    requires forall j :: 0 <= j < |sent| ==> sent[j].request.seqNo in numbers
    ensures S.AllArrived(numbers, sent[i].request.seqNo) <==> S.AllArrived(numbers, first - 1)
  {
    assert sent[i].request.seqNo == first + i;
    if S.AllArrived(numbers, first - 1) {
      forall k: u64 | 1 <= k <= first + i
        ensures k in numbers
      {
        if first <= k {
          assert sent[k - first].request.seqNo == k;
        }
      }
    }
  }

  lemma ConsecutiveIsDeliveredIff(events: seq<S.Event>, sender: string, sent: seq<Transmission>, first: u64)
    requires Flooded(events, sender, sent) && Consecutive(sent, first) && sent != []
    ensures AllDelivered(events, sender, sent)
       <==> 1 <= first && S.AllArrived(S.SeqNos(S.Arrivals(events, sender)), first - 1)
    ensures first > 0 && !AllDelivered(events, sender, sent) ==>
      forall i :: 0 <= i < |sent| ==> !Delivered(events, sender, sent[i].request)
  {
    var numbers := S.SeqNos(S.Arrivals(events, sender));
    assert sent[0].request.seqNo == first;
    forall i | 0 <= i < |sent|
      ensures Delivered(events, sender, sent[i].request)
        <==> 1 <= first + i && S.AllArrived(numbers, sent[i].request.seqNo)
    {
      DeliveredIffNumberIs(events, sender, sent, i);
    }
    if 1 <= first {
      forall i | 0 <= i < |sent|
        ensures S.AllArrived(numbers, sent[i].request.seqNo) <==> S.AllArrived(numbers, first - 1)
      {
        FillsUp(numbers, sent, first, i);
      }
    }
  }

  /** A flush whose numbers wrap around has a request numbered 0. */
  lemma WrappedHasZero(s: Outbox, rows: seq<MessageRow>, peer: string, from: string, now: i64, msgIds: seq<u64>)
    requires |msgIds| == |rows| && s.nextRequest + |rows| <= TWO_TO_THE_64 < s.seqCounter + |rows|
    ensures var i := TWO_TO_THE_64 - s.seqCounter;
      i < |rows| && FlushSent(s, rows, peer, from, now, msgIds)[i].request.seqNo == 0
  {
    assert SeqAfter(s.seqCounter, TWO_TO_THE_64 - s.seqCounter) == 0;
  }

  /** A flush reaches a receiver, complete, exactly if nothing was waiting or every number
      below the daemon-wide counter has reached that receiver too since its reset: the
      counter is shared by all peers, the receiver counts each sender from 1. */
  lemma FlushIsDeliveredIff(
    s: Outbox, rows: seq<MessageRow>, peer: string, from: string, now: i64, msgIds: seq<u64>, events: seq<S.Event>,
      sender: string)
    requires |msgIds| == |rows| && s.nextRequest + |rows| <= TWO_TO_THE_64
    requires Flooded(events, sender, FlushSent(s, rows, peer, from, now, msgIds))
    ensures AllDelivered(events, sender, FlushSent(s, rows, peer, from, now, msgIds))
       <==> || rows == []
            || (&& 1 <= s.seqCounter && s.seqCounter + |rows| <= TWO_TO_THE_64
                && S.AllArrived(S.SeqNos(S.Arrivals(events, sender)), s.seqCounter - 1))
  {
    var sent := FlushSent(s, rows, peer, from, now, msgIds);
    if s.seqCounter + |rows| <= TWO_TO_THE_64 {
      FlushIsConsecutive(s, rows, peer, from, now, msgIds);
      if rows != [] {
        ConsecutiveIsDeliveredIff(events, sender, sent, s.seqCounter);
      }
    } else {
      WrappedHasZero(s, rows, peer, from, now, msgIds);
      DeliveredIffNumberIs(events, sender, sent, TWO_TO_THE_64 - s.seqCounter);
    }
  }

  /** Delivered requests come out in queue order: request i is delivery first + i. */
  lemma DeliveredInQueueOrder(events: seq<S.Event>, sender: string, sent: seq<Transmission>, first: u64, i: nat)
    requires Flooded(events, sender, sent) && Consecutive(sent, first) && 1 <= first && i < |sent|
    requires Delivered(events, sender, sent[i].request)
    ensures first - 1 + i < |S.DeliveredTo(events, sender)|
    ensures Copy(S.DeliveredTo(events, sender)[first - 1 + i], sent[i].request)
  {
    S.DeliveryIsInOrder(events, sender);
    var delivered := S.DeliveredTo(events, sender);
    var m :| m in delivered && Copy(m, sent[i].request);
    var k :| 0 <= k < |delivered| && delivered[k] == m;
    assert k == first - 1 + i;
  }

  /** Nothing but the flush has arrived: then the shared counter must have stood at 1. */
  lemma FlushIsDeliveredIffCounterIsOne(
    s: Outbox, rows: seq<MessageRow>, peer: string, from: string, now: i64, msgIds: seq<u64>, events: seq<S.Event>,
      sender: string)
    requires |msgIds| == |rows| && s.nextRequest + |rows| <= TWO_TO_THE_64 && |rows| < TWO_TO_THE_64
    requires Flooded(events, sender, FlushSent(s, rows, peer, from, now, msgIds))
    requires forall m :: m in S.Arrivals(events, sender) ==>
      exists i :: 0 <= i < |rows| && Copy(m, FlushSent(s, rows, peer, from, now, msgIds)[i].request)
    ensures AllDelivered(events, sender, FlushSent(s, rows, peer, from, now, msgIds))
      <==> rows == [] || s.seqCounter == 1
  {
    var sent := FlushSent(s, rows, peer, from, now, msgIds);
    FlushIsDeliveredIff(s, rows, peer, from, now, msgIds, events, sender);
    if rows != [] && 1 < s.seqCounter && s.seqCounter + |rows| <= TWO_TO_THE_64 {
      FlushIsConsecutive(s, rows, peer, from, now, msgIds);
      assert 1 !in S.SeqNos(S.Arrivals(events, sender));
    }
  }

  // ── Which of two messages with one number ───────────────────────────

  /** The latest arrival from peer with number n since its last reset. */
  function Latest(events: seq<S.Event>, peer: string, n: nat): Option<ChatRequest> {
    if events == [] then None
    else
      var before := Latest(events[..|events| - 1], peer, n);
      match events[|events| - 1]
      case Reset(p) => if p == peer then None else before
      case Arrive(p, msg) => if p == peer && msg.seqNo == n then Some(msg) else before
  }

  /** After an arrival what waits waited before, or is the arrival itself. */
  lemma WaitsAfter(t: S.Tracker, peer: string, msg: ChatRequest, n: nat)
    requires S.WellNumbered(t) && n in S.Ingested(t, peer, msg).BufferOf(peer)
    ensures var buf' := S.Ingested(t, peer, msg).BufferOf(peer);
      if msg.seqNo == n then buf'[n] == msg else n in t.BufferOf(peer) && buf'[n] == t.BufferOf(peer)[n]
  {
    S.RunAndRest(t.BufferOf(peer), t.LastOf(peer) + 2);
  }

  /** What waits is the latest arrival of its number. */
  lemma {:induction false} WaitingIsLatest(events: seq<S.Event>, peer: string, n: nat)
    requires n in S.Run(events).BufferOf(peer)
    ensures Latest(events, peer, n) == Some(S.Run(events).BufferOf(peer)[n])
  {
    if events != [] {
      var before, e := events[..|events| - 1], events[|events| - 1];
      if e.Arrive? && e.peer == peer {
        S.RunIsWellNumbered(before);
        WaitsAfter(S.Run(before), peer, e.msg, n);
        if e.msg.seqNo != n {
          WaitingIsLatest(before, peer, n);
        }
      } else {
        WaitingIsLatest(before, peer, n);
      }
    }
  }

  lemma {:induction false} ContiguousAt(buf: map<nat, ChatRequest>, next: nat, i: nat)
    requires i < |S.Contiguous(buf, next)|
    ensures next + i in buf && S.Contiguous(buf, next)[i] == buf[next + i]
    decreases i
  {
    if i > 0 {
      ContiguousAt(buf - {next}, next + 1, i - 1);
    }
  }

  /** Of several arrivals with one number, a run delivers the one that came last before
      the numbers up to it were complete; whatever comes later is dropped. */
  lemma DeliveredIsLatest(events: seq<S.Event>, peer: string, msg: ChatRequest)
    ensures var batch := S.Deliveries(S.Run(events), peer, msg);
      forall i :: 0 <= i < |batch| ==> Latest(events + [S.Arrive(peer, msg)], peer, batch[i].seqNo) == Some(batch[i])
    ensures msg.seqNo <= S.Run(events).LastOf(peer)
      ==> S.DeliveredTo(events + [S.Arrive(peer, msg)], peer) == S.DeliveredTo(events, peer)
  {
    var longer := events + [S.Arrive(peer, msg)];
    assert longer[..|events|] == events;
    var last, buf := S.Run(events).LastOf(peer), S.Run(events).BufferOf(peer);
    var batch := S.Deliveries(S.Run(events), peer, msg);
    S.RunIsWellNumbered(events);
    forall i | 0 <= i < |batch|
      ensures Latest(longer, peer, batch[i].seqNo) == Some(batch[i])
    {
      if i > 0 {
        ContiguousAt(buf, last + 2, i - 1);
        WaitingIsLatest(events, peer, last + 1 + i);
        assert batch[i] == S.Contiguous(buf, last + 2)[i - 1] == buf[last + 1 + i];
      }
    }
  }
}
