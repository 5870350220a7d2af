/** In-flight messages awaiting an ACK, by outbound request id. */
module Reliability {
  import opened Base

  const MAX_RETRIES: nat := 3

  datatype PendingEntry = PendingEntry(
    peer: string, from: string, content: Text, ts: i64, msgId: u64, ttl: i64, seqNo: u64, retries: nat)

  type InFlightMap = map<u64, PendingEntry>

  /** The entry as fail() hands it back: one more failed attempt. */
  function Failed(entry: PendingEntry): PendingEntry {
    entry.(retries := entry.retries + 1)
  }

  class PendingTracker {
    var pending: InFlightMap

    constructor ()
      ensures pending == map[]
    {
      pending := map[];
    }

    method Track(id: u64, peer: string, from: string, content: Text, ts: i64, msgId: u64, ttl: i64, seqNo: u64)
      modifies this
      ensures pending == old(pending)[id := PendingEntry(peer, from, content, ts, msgId, ttl, seqNo, 0)]
    {
      pending := pending[id := PendingEntry(peer, from, content, ts, msgId, ttl, seqNo, 0)];
    }

    method Ack(id: u64) returns (entry: Option<PendingEntry>)
      modifies this
      ensures entry == if id in old(pending) then Some(old(pending)[id]) else None
      ensures pending == old(pending) - {id}
    {
      entry := if id in pending then Some(pending[id]) else None;
      pending := pending - {id};
    }

    /** Takes the entry out; the caller decides between another attempt and hand-off. */
    method Fail(id: u64) returns (entry: Option<PendingEntry>)
      modifies this
      ensures entry == if id in old(pending) then Some(Failed(old(pending)[id])) else None
      ensures pending == old(pending) - {id}
    {
      entry := if id in pending then Some(Failed(pending[id])) else None;
      pending := pending - {id};
    }

    method Retrack(newId: u64, entry: PendingEntry)
      modifies this
      ensures pending == old(pending)[newId := entry]
    {
      pending := pending[newId := entry];
    }
  }

  // ── Retries added up ────────────────────────────────────────────────

  ghost function SumRetries(m: InFlightMap): nat {
    if m == map[] then 0
    else
      var id :| id in m;
      m[id].retries + SumRetries(m - {id})
  }

  lemma {:induction false} SumWithout(m: InFlightMap, id: u64)
    requires id in m
    ensures SumRetries(m) == m[id].retries + SumRetries(m - {id})
    decreases |m|
  {
    var first :| first in m && SumRetries(m) == m[first].retries + SumRetries(m - {first});
    if first != id {
      SumWithout(m - {first}, id);
      SumWithout(m - {id}, first);
      assert m - {first} - {id} == m - {id} - {first};
    }
  }

  lemma SumWith(m: InFlightMap, id: u64, entry: PendingEntry)
    requires id !in m
    ensures SumRetries(m[id := entry]) == SumRetries(m) + entry.retries
    ensures |m[id := entry]| == |m| + 1
  {
    SumWithout(m[id := entry], id);
    assert m[id := entry] - {id} == m;
  }

  lemma {:induction false} SumBound(m: InFlightMap)
    requires forall id :: id in m ==> m[id].retries <= MAX_RETRIES
    ensures SumRetries(m) <= MAX_RETRIES * |m|
    decreases |m|
  {
    if m != map[] {
      var first :| first in m && SumRetries(m) == m[first].retries + SumRetries(m - {first});
      SumBound(m - {first});
      assert |m - {first}| == |m| - 1;
    }
  }
}
