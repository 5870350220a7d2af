/** The chat arms of the daemon's event loop, over the five pieces of state they
    share.  Each arm is proved to be one step of the sending machine (Outbox) or of
    the receiving one (Inbox). */
module Daemon {
  import opened Base
  import opened Chat
  import opened Dedup
  import opened MessageQueue
  import opened Reliability
  import opened Outbox
  import S = Sequence
  import I = Inbox

  class Daemon {
    const shortCode: string
    const pending: PendingTracker
    const dedup: DedupFilter
    const sequence: S.SequenceTracker
    const queue: Queue
    var counters: Counters
    var duplicates: nat
    var seqCounter: u64
    var nextRequest: nat
    var ticks: nat

    function Out(): Outbox
      reads this, pending, queue
    {
      Outbox(pending.pending, queue.messages, queue.lastId, queue.pending, counters, seqCounter, nextRequest, ticks)
    }

    ghost function In(): I.State
      reads this, dedup, sequence
    {
      I.State(sequence.View(), dedup.accepted, duplicates)
    }

    ghost predicate Valid()
      reads this, dedup, sequence
    {
      dedup.Valid() && sequence.Valid()
    }

    /** A daemon process right after opening its database, before recovery. */
    constructor (queue: Queue, shortCode: string, firstRequest: nat)
      ensures Valid() && this.queue == queue && this.shortCode == shortCode
      ensures fresh(pending) && fresh(dedup) && fresh(sequence)
      ensures In() == I.FRESH
      ensures Out() == Rebooted(Out(), firstRequest).(table := queue.pending)
    {
      this.queue, this.shortCode := queue, shortCode;
      pending := new PendingTracker();
      dedup := new DedupFilter();
      sequence := new S.SequenceTracker();
      counters, duplicates, seqCounter, nextRequest, ticks := ZERO, 0, 1, firstRequest, 0;
    }

    /** Hand a request to the transport, which issues the next id for it. */
    method SendRequest(peer: string, request: ChatRequest) returns (sent: Transmission)
      requires nextRequest < TWO_TO_THE_64
      modifies this`nextRequest
      ensures sent == Transmission(old(nextRequest), peer, request) && nextRequest == old(nextRequest) + 1
    {
      sent := Transmission(nextRequest, peer, request);
      nextRequest := nextRequest + 1;
    }

    /** Clear the stale rows, then send, persist and track each unexpired one. */
    method Recover(now: i64) returns (sent: seq<Transmission>, ghost keys: seq<i64>)
      requires Valid()
      requires Out() == Rebooted(Out(), nextRequest).(table := queue.pending)
      requires nextRequest + |queue.pending| <= TWO_TO_THE_64
      modifies this, pending, queue
      ensures Valid() && In() == old(In())
      ensures Enabled(old(Out()), Restart(now, old(nextRequest), keys))
      ensures Out() == Step(old(Out()), Restart(now, old(nextRequest), keys))
      ensures sent == Sent(old(Out()), Restart(now, old(nextRequest), keys))
    {
      var rows;
      rows, keys := queue.LoadAllPending();
      ClearStale(rows, keys);
      sent := Resend(rows, now);
    }

    /** Send, persist and track the loaded rows one after the other. */
    method Resend(rows: seq<StoredPending>, now: i64) returns (sent: seq<Transmission>)
      requires nextRequest + |rows| <= TWO_TO_THE_64
      modifies this`counters, this`nextRequest, pending, queue`pending
      ensures Out() == RecoveredAll(old(Out()), rows, now)
      ensures sent == ResentAll(old(nextRequest), rows, now)
    {
      var i := 0;
      sent := [];
      ghost var left, goal, whole := rows, RecoveredAll(Out(), rows, now), ResentAll(nextRequest, rows, now);
      while i < |rows|
        invariant 0 <= i <= |rows| && nextRequest + (|rows| - i) <= TWO_TO_THE_64
        invariant left == rows[i..]
        invariant RecoveredAll(Out(), left, now) == goal
        invariant sent + ResentAll(nextRequest, left, now) == whole
      {
        ghost var next := nextRequest;
        var one := RecoverRow(rows[i], now);
        ResentFirst(next, left, now, one, nextRequest);
        Associative(sent, one, ResentAll(nextRequest, left[1..], now));
        sent := sent + one;
        left := left[1..];
        i := i + 1;
      }
    }

    method RecoverRow(row: StoredPending, now: i64) returns (sent: seq<Transmission>)
      requires nextRequest < TWO_TO_THE_64
      modifies this`counters, this`nextRequest, pending, queue`pending
      ensures Out() == RecoveredOne(old(Out()), row, now)
      ensures sent == ResentOne(old(nextRequest), row, now)
    {
      if row.ttl < now {
        return [];
      }
      var request := ChatRequest(row.from, row.content, row.ts, row.msgId, row.ttl, row.seqNo, None);
      var out := SendRequest(row.peer, request);
      queue.PushPending(row.(requestId := out.id, createdAt := now));
      pending.Track(out.id, row.peer, row.from, row.content, row.ts, row.msgId, row.ttl, row.seqNo);
      counters := counters.(sent := counters.sent + 1);
      sent := [out];
    }

    method ClearStale(rows: seq<StoredPending>, ghost keys: seq<i64>)
      requires IsLoadOrder(queue.pending, keys) && rows == LoadedAll(queue.pending, keys)
      modifies queue`pending
      ensures queue.pending == map[]
    {
      var i := 0;
      while i < |rows|
        invariant 0 <= i <= |rows|
        invariant forall k :: k in queue.pending ==> k in keys[i..]
      {
        CastsRoundTrip(0, keys[i]);
        assert forall k :: k in keys[i..] ==> k == keys[i] || k in keys[i + 1..];
        queue.RemovePending(rows[i].requestId);
        i := i + 1;
      }
    }

    /** A peer connects: its numbering starts over, and its queued messages go out. */
    method OnConnectionEstablished(peer: string, now: i64, msgIds: seq<u64>) returns (sent: seq<Transmission>)
      requires Valid()
      requires Enabled(Out(), Connected(peer, shortCode, now, msgIds))
      modifies this, pending, queue, sequence
      ensures Valid() && In() == I.Received(old(In()), S.Reset(peer))
      ensures Out() == Step(old(Out()), Connected(peer, shortCode, now, msgIds))
      ensures sent == Sent(old(Out()), Connected(peer, shortCode, now, msgIds))
      ensures var rows := PendingFor(old(queue.messages), peer, now);
        |sent| == |rows| && forall i :: 0 <= i < |rows| ==>
          && sent[i].id == old(nextRequest) + i && sent[i].peer == peer
          && sent[i].request == ChatRequest(shortCode, rows[i].content, now, msgIds[i],
               if rows[i].expiresAt.Some? then rows[i].expiresAt.value else 0x7FFF_FFFF_FFFF_FFFF,
               (old(seqCounter) + i) % 0x1_0000_0000_0000_0000, None)
    {
      sequence.ResetPeer(peer);
      sent := FlushQueue(peer, now, msgIds);
    }

    method FlushQueue(peer: string, now: i64, msgIds: seq<u64>) returns (sent: seq<Transmission>)
      requires Enabled(Out(), Connected(peer, shortCode, now, msgIds))
      modifies this`counters, this`nextRequest, this`seqCounter, pending, queue
      ensures Out() == Step(old(Out()), Connected(peer, shortCode, now, msgIds))
      ensures sent == Sent(old(Out()), Connected(peer, shortCode, now, msgIds))
    {
      var rows := PendingFor(queue.messages, peer, now);
      var i := 0;
      sent := [];
      ghost var goal := FlushedAll(Out(), rows, peer, shortCode, now, msgIds);
      ghost var whole := FlushSent(Out(), rows, peer, shortCode, now, msgIds);
      ghost var left, ids := rows, msgIds;
      while i < |rows|
        invariant 0 <= i <= |rows| == |msgIds| && nextRequest + (|rows| - i) <= TWO_TO_THE_64
        invariant left == rows[i..] && ids == msgIds[i..]
        invariant FlushedAll(Out(), left, peer, shortCode, now, ids) == goal
        invariant sent + FlushSent(Out(), left, peer, shortCode, now, ids) == whole
      {
        ghost var before := Out();
        var one := FlushRow(rows[i], peer, now, msgIds[i]);
        FlushFirst(before, left, peer, shortCode, now, ids, Out(), sent, one);
        sent := sent + [one];
        left, ids := left[1..], ids[1..];
        i := i + 1;
      }
    }

    method FlushRow(row: MessageRow, peer: string, now: i64, msgId: u64) returns (sent: Transmission)
      requires nextRequest < TWO_TO_THE_64
      modifies this`counters, this`nextRequest, this`seqCounter, pending, queue
      ensures Out() == FlushedOne(old(Out()), row, peer, shortCode, now, msgId)
      ensures sent == Transmission(old(nextRequest), peer,
        RequestOf(Outgoing(old(Out()), row, peer, shortCode, now, msgId), now))
    {
      var seqNo := seqCounter;
      seqCounter := SeqAfter(seqCounter, 1);
      var request := ChatRequest(shortCode, row.content, now, msgId, row.expiresAt.GetOr(I64_MAX), seqNo, None);
      sent := SendRequest(peer, request);
      pending.Track(sent.id, peer, shortCode, row.content, request.ts, request.msgId, request.ttl, seqNo);
      queue.PushPending(StoredPending(sent.id, peer, shortCode, row.content, request.ts, request.msgId, request.ttl,
        seqNo, 0, now));
      counters := counters.(sent := counters.sent + 1);
      queue.MarkDelivered(row.id);
    }

    /** Order first, then filter replays; acknowledge in any case.  The ACK says processed
        only of the next message of the peer, under an id not processed lately. */
    method OnRequest(peer: string, request: ChatRequest) returns (ack: bool, processed: seq<ChatRequest>)
      requires Valid()
      modifies this`duplicates, dedup, sequence
      ensures Valid() && ack
      ensures processed == I.ProcessedBy(old(In()), S.Arrive(peer, request))
      ensures In() == I.Received(old(In()), S.Arrive(peer, request))
      ensures request in processed <==>
        request.seqNo == old(sequence.View()).LastOf(peer) + 1 && request.msgId !in Window(old(dedup.accepted))
      ensures request.seqNo == 0 ==> request !in processed
    {
      I.ProcessedAtArrivalIff(In(), peer, request);
      var ordered := sequence.Ingest(peer, request);
      processed := Process(ordered);
      return true, processed;
    }

    /** The replay filter over one batch, counting what it suppresses. */
    method Process(ordered: seq<ChatRequest>) returns (processed: seq<ChatRequest>)
      requires dedup.Valid()
      modifies this`duplicates, dedup
      ensures dedup.Valid()
      ensures processed == I.Admitted(old(dedup.accepted), ordered)
      ensures dedup.accepted == old(dedup.accepted) + I.Ids(processed)
      ensures duplicates == old(duplicates) + |ordered| - |processed|
    {
      processed := [];
      var i := 0;
      ghost var start, left, whole := dedup.accepted, ordered, I.Admitted(dedup.accepted, ordered);
      while i < |ordered|
        invariant 0 <= i <= |ordered| && left == ordered[i..]
        invariant processed + I.Admitted(dedup.accepted, left) == whole
        invariant dedup.accepted == start + I.Ids(processed)
        invariant duplicates == old(duplicates) + i - |processed|
        invariant dedup.Valid()
      {
        processed := ProcessOne(processed, ordered[i], left, start);
        left := left[1..];
        i := i + 1;
      }
    }

    /** One message: processed, or counted as a replay. */
    method ProcessOne(before: seq<ChatRequest>, m: ChatRequest, ghost left: seq<ChatRequest>, ghost start: seq<u64>)
      returns (after: seq<ChatRequest>)
      requires dedup.Valid() && left != [] && left[0] == m && dedup.accepted == start + I.Ids(before)
      modifies this`duplicates, dedup
      ensures dedup.Valid() && dedup.accepted == Asked(old(dedup.accepted), m.msgId) == start + I.Ids(after)
      ensures after == if m.msgId in Window(old(dedup.accepted)) then before else before + [m]
      ensures before + I.Admitted(old(dedup.accepted), left) == after + I.Admitted(dedup.accepted, left[1..])
      ensures duplicates - |before| == old(duplicates) + 1 - |after|
    {
      ghost var accepted := dedup.accepted;
      var dup := dedup.IsDup(m.msgId);
      if dup {
        duplicates := duplicates + 1;
        after := before;
      } else {
        after := before + [m];
      }
      assert left == [m] + left[1..];
      I.AdmitOne(accepted, before, m, left[1..], dedup.accepted, after);
      Associative(start, I.Ids(before), [m.msgId]);
    }

    method OnAck(id: u64)
      requires Valid()
      modifies this`counters, pending, queue
      ensures Valid() && In() == old(In())
      ensures Out() == Step(old(Out()), AckReceived(id))
    {
      var entry := pending.Ack(id);
      if entry.Some? {
        queue.RemovePending(id);
        counters := counters.(acked := counters.acked + 1);
      }
    }

    method OnOutboundFailure(id: u64, peer: string, now: i64) returns (sent: seq<Transmission>)
      requires Valid()
      requires Enabled(Out(), SendFailed(id, peer, now))
      modifies this, pending, queue
      ensures Valid() && In() == old(In())
      ensures Out() == Step(old(Out()), SendFailed(id, peer, now))
      ensures sent == Sent(old(Out()), SendFailed(id, peer, now))
      ensures var tracked := old(pending.pending);
        if id in tracked && tracked[id].retries < 3 then
          var e := tracked[id];
          && sent == [Transmission(old(nextRequest), peer,
                                   ChatRequest(e.from, e.content, now, e.msgId, e.ttl, e.seqNo, None))]
          && pending.pending == (tracked - {id})[old(nextRequest) as u64 := e.(retries := e.retries + 1)]
        else
          sent == [] && pending.pending == tracked - {id}
      ensures var tracked := old(pending.pending);
        queue.messages == old(queue.messages)
          + if id in tracked && 3 <= tracked[id].retries
            then [MessageRow(old(queue.lastId) + 1, peer, tracked[id].content, 0, None, false, Some(tracked[id].ttl))]
            else []
    {
      sent := [];
      var failed := pending.Fail(id);
      match failed
      case None =>
      case Some(entry) =>
        if entry.retries <= MAX_RETRIES {
          var request := ChatRequest(entry.from, entry.content, now, entry.msgId, entry.ttl, entry.seqNo, None);
          var out := SendRequest(peer, request);
          queue.RemovePending(id);
          queue.PushPending(StoredPending(out.id, peer, entry.from, entry.content, entry.ts, entry.msgId, entry.ttl,
                                          entry.seqNo, entry.retries, now));
          pending.Retrack(out.id, entry);
          counters := counters.(retried := counters.retried + 1);
          sent := [out];
        } else {
          counters := counters.(failed := counters.failed + 1);
          queue.RemovePending(id);
          var _ := queue.PushWithTtl(peer, entry.content, Some(entry.ttl));
          counters := counters.(queued := counters.queued + 1);
        }
    }

    method OnTick(now: i64)
      requires Valid()
      modifies this`ticks, queue
      ensures Valid() && In() == old(In())
      ensures Out() == Step(old(Out()), Tick(now))
    {
      ticks := ticks + 1;
      if ticks % 10 == 0 {
        var _ := queue.ExpireBefore(now);
        var _ := queue.PruneDelivered();
        var _ := queue.ExpirePending(now);
      }
    }
  }
}
