/** Per-sender reordering: messages are handed on in sequence-number order, early
    ones wait in a buffer until the gap before them is filled. */
module Sequence {
  import opened Base
  import opened Chat

  /** The tracker's two maps as a value. */
  datatype Tracker = Tracker(last: map<string, nat>, buffer: map<string, map<nat, ChatRequest>>) {
    /** The highest consecutive number delivered for a peer; 0 for an unknown one. */
    function LastOf(peer: string): nat {
      if peer in last then last[peer] else 0
    }

    function BufferOf(peer: string): map<nat, ChatRequest> {
      if peer in buffer then buffer[peer] else map[]
    }
  }

  const EMPTY := Tracker(map[], map[])

  /** The buffered messages numbered next, next + 1, ... up to the first gap. */
  function Contiguous(buf: map<nat, ChatRequest>, next: nat): seq<ChatRequest>
    decreases |buf|
  {
    if next in buf then [buf[next]] + Contiguous(buf - {next}, next + 1) else []
  }

  /** What stays in the buffer when the contiguous run is taken out. */
  function Remaining(buf: map<nat, ChatRequest>, next: nat): map<nat, ChatRequest>
    decreases |buf|
  {
    if next in buf then Remaining(buf - {next}, next + 1) else buf
  }

  function WithBuffer(buffer: map<string, map<nat, ChatRequest>>, peer: string, buf: map<nat, ChatRequest>)
    : map<string, map<nat, ChatRequest>>
  {
    if buf == map[] then buffer - {peer} else buffer[peer := buf]
  }

  /** What ingesting msg from peer delivers. */
  function Deliveries(t: Tracker, peer: string, msg: ChatRequest): seq<ChatRequest> {
    var last := t.LastOf(peer);
    if msg.seqNo == last + 1 then [msg] + Contiguous(t.BufferOf(peer), last + 2) else []
  }

  /** The tracker after ingesting msg from peer. */
  function Ingested(t: Tracker, peer: string, msg: ChatRequest): Tracker {
    var last := t.LastOf(peer);
    var buf := t.BufferOf(peer);
    if msg.seqNo <= last then
      t
    else if msg.seqNo == last + 1 then
      Tracker(t.last[peer := last + |Deliveries(t, peer, msg)|],
              WithBuffer(t.buffer, peer, Remaining(buf, last + 2)))
    else
      t.(buffer := t.buffer[peer := buf[msg.seqNo as nat := msg]])
  }

  function Forgotten(t: Tracker, peer: string): Tracker {
    Tracker(t.last - {peer}, t.buffer - {peer})
  }

  /** Something waits, it is beyond the missing number, and it is filed under its own. */
  ghost predicate WellFiled(last: nat, buf: map<nat, ChatRequest>) {
    buf != map[] && forall s :: s in buf ==> last + 2 <= s && buf[s].seqNo == s
  }

  /** A peer is in the buffer map only while something is waiting. */
  ghost predicate WellNumbered(t: Tracker) {
    forall p :: p in t.buffer ==> WellFiled(t.LastOf(p), t.buffer[p])
  }

  ghost predicate NumberedFrom(run: seq<ChatRequest>, next: nat) {
    forall i :: 0 <= i < |run| ==> run[i].seqNo == next + i
  }

  lemma NumberedCons(m: ChatRequest, run: seq<ChatRequest>, next: nat)
    requires m.seqNo == next && NumberedFrom(run, next + 1)
    ensures NumberedFrom([m] + run, next)
  {
    forall i | 0 <= i < |[m] + run|
      ensures ([m] + run)[i].seqNo == next + i
    {
      assert i > 0 ==> ([m] + run)[i] == run[i - 1];
    }
  }

  /** The run is numbered from next on, and what remains lies beyond the gap after it. */
  lemma {:induction false} RunAndRest(buf: map<nat, ChatRequest>, next: nat)
    requires forall s :: s in buf ==> next <= s && buf[s].seqNo == s
    ensures var run, rest := Contiguous(buf, next), Remaining(buf, next);
      && NumberedFrom(run, next)
      && (forall s :: s in rest ==> next + |run| < s && s in buf && rest[s] == buf[s])
    decreases |buf|
  {
    if next in buf {
      RunAndRest(buf - {next}, next + 1);
      NumberedCons(buf[next], Contiguous(buf - {next}, next + 1), next);
    }
  }

  /** What one arrival delivers is numbered last + 1, last + 2, ...; so the arriving
      message is delivered at once exactly if it is the next one. */
  lemma DeliveredAtArrival(t: Tracker, peer: string, msg: ChatRequest)
    requires WellNumbered(t)
    ensures var batch := Deliveries(t, peer, msg);
      && NumberedFrom(batch, t.LastOf(peer) + 1)
      && (msg in batch <==> msg.seqNo == t.LastOf(peer) + 1)
  {
    var last := t.LastOf(peer);
    RunAndRest(t.BufferOf(peer), last + 2);
    if msg.seqNo == last + 1 {
      NumberedCons(msg, Contiguous(t.BufferOf(peer), last + 2), last + 1);
    }
  }

  lemma StaysWellNumbered(t: Tracker, peer: string, msg: ChatRequest)
    requires WellNumbered(t)
    ensures WellNumbered(Ingested(t, peer, msg))
  {
    var t', last := Ingested(t, peer, msg), t.LastOf(peer);
    RunAndRest(t.BufferOf(peer), last + 2);
    forall p | p in t'.buffer
      ensures WellFiled(t'.LastOf(p), t'.buffer[p])
    {
      if p != peer {
        assert p in t.buffer && t'.buffer[p] == t.buffer[p];
      } else if msg.seqNo > last + 1 {
        assert msg.seqNo as nat in t'.buffer[p];
      }
    }
  }

  /** The next message moves from the buffer to the run. */
  lemma TakeNext(run: seq<ChatRequest>, rest: map<nat, ChatRequest>, next: nat,
                 m: ChatRequest, rest': map<nat, ChatRequest>)
    requires next in rest && m == rest[next] && rest' == rest - {next}
    ensures run + Contiguous(rest, next) == run + [m] + Contiguous(rest', next + 1)
    ensures Remaining(rest, next) == Remaining(rest', next + 1)
    ensures |rest'| < |rest|
  {
    Associative(run, [m], Contiguous(rest', next + 1));
  }

  lemma RunIsWhole(run: seq<ChatRequest>, rest: map<nat, ChatRequest>, next: nat, whole: seq<ChatRequest>)
    requires next !in rest && run + Contiguous(rest, next) == whole
    ensures run == whole && rest == Remaining(rest, next)
  {
    assert run + [] == run;
  }

  lemma SetSame(last: map<string, nat>, peer: string, n: nat)
    requires peer in last && last[peer] == n
    ensures last[peer := n] == last
  {
  }

  class SequenceTracker {
    var lastSeq: map<string, nat>
    var buffer: map<string, map<nat, ChatRequest>>

    function View(): Tracker
      reads this
    {
      Tracker(lastSeq, buffer)
    }

    ghost predicate Valid()
      reads this
    {
      WellNumbered(View())
    }

    constructor ()
      ensures Valid() && View() == EMPTY
    {
      lastSeq, buffer := map[], map[];
    }

    method Ingest(peer: string, msg: ChatRequest) returns (delivered: seq<ChatRequest>)
      requires Valid()
      modifies this
      ensures Valid()
      ensures delivered == Deliveries(old(View()), peer, msg)
      ensures View() == Ingested(old(View()), peer, msg)
      ensures msg in delivered <==> msg.seqNo == old(View()).LastOf(peer) + 1
    {
      DeliveredAtArrival(View(), peer, msg);
      StaysWellNumbered(View(), peer, msg);
      var last := View().LastOf(peer);
      if msg.seqNo <= last {
        return [];
      }
      if msg.seqNo == last + 1 {
        delivered := Deliver(peer, msg);
      } else {
        var buf := View().BufferOf(peer)[msg.seqNo as nat := msg];
        assert msg.seqNo in buf;
        buffer := buffer[peer := buf];
        return [];
      }
    }

    /** The branch for exactly the next message: it and whatever waited for it. */
    method Deliver(peer: string, msg: ChatRequest) returns (delivered: seq<ChatRequest>)
      requires msg.seqNo == View().LastOf(peer) + 1
      modifies this
      ensures delivered == Deliveries(old(View()), peer, msg)
      ensures View() == Ingested(old(View()), peer, msg)
    {
      lastSeq := lastSeq[peer := msg.seqNo];
      delivered := [msg];
      if peer in buffer {
        var run, rest := Flush(peer, msg.seqNo + 1, buffer[peer]);
        delivered := delivered + run;
        buffer := WithBuffer(buffer, peer, rest);
      } else {
        assert WithBuffer(buffer, peer, map[]) == buffer;
      }
    }

    /** The inner loop: take the contiguous run out of the peer's buffer, moving
        the peer's last delivered number along with it. */
    method Flush(peer: string, first: nat, waiting: map<nat, ChatRequest>)
      returns (run: seq<ChatRequest>, rest: map<nat, ChatRequest>)
      requires first > 0 && peer in lastSeq && lastSeq[peer] == first - 1
      modifies this`lastSeq
      ensures run == Contiguous(waiting, first) && rest == Remaining(waiting, first)
      ensures lastSeq == old(lastSeq)[peer := first - 1 + |run|]
    {
      run, rest := [], waiting;
      var next := first;
      ghost var start := lastSeq;
      SetSame(start, peer, first - 1);
      while next in rest
        invariant next == first + |run|
        invariant run + Contiguous(rest, next) == Contiguous(waiting, first)
        invariant Remaining(rest, next) == Remaining(waiting, first)
        invariant lastSeq == start[peer := next - 1]
        decreases |rest|
      {
        ghost var left := rest;
        var m;
        m, rest := TakeOne(peer, next, rest, start);
        TakeNext(run, left, next, m, rest);
        run := run + [m];
        next := next + 1;
      }
      RunIsWhole(run, rest, next, Contiguous(waiting, first));
    }

    /** Take message next out of what waits; it is the last one delivered now. */
    method TakeOne(peer: string, next: nat, waiting: map<nat, ChatRequest>, ghost start: map<string, nat>)
      returns (m: ChatRequest, rest: map<nat, ChatRequest>)
      requires next in waiting && next > 0 && lastSeq == start[peer := next - 1]
      modifies this`lastSeq
      ensures m == waiting[next] && rest == waiting - {next}
      ensures lastSeq == old(lastSeq)[peer := next] == start[peer := next]
    {
      m, rest := waiting[next], waiting - {next};
      lastSeq := lastSeq[peer := next];
    }

    method ResetPeer(peer: string)
      requires Valid()
      modifies this
      ensures Valid() && View() == Forgotten(old(View()), peer)
    {
      lastSeq := lastSeq - {peer};
      buffer := buffer - {peer};
    }
  }

  // ── Whole runs ──────────────────────────────────────────────────────

  datatype Event = Arrive(peer: string, msg: ChatRequest) | Reset(peer: string)

  function Step(t: Tracker, e: Event): Tracker {
    match e
    case Arrive(peer, msg) => Ingested(t, peer, msg)
    case Reset(peer) => Forgotten(t, peer)
  }

  function Run(events: seq<Event>): Tracker {
    if events == [] then EMPTY else Step(Run(events[..|events| - 1]), events[|events| - 1])
  }

  /** What arrived from peer since its last reset. */
  function Arrivals(events: seq<Event>, peer: string): set<ChatRequest> {
    if events == [] then {}
    else
      var before := Arrivals(events[..|events| - 1], peer);
      match events[|events| - 1]
      case Reset(p) => if p == peer then {} else before
      case Arrive(p, msg) => if p == peer then before + {msg} else before
  }

  /** What was delivered for peer since its last reset, in delivery order. */
  function DeliveredTo(events: seq<Event>, peer: string): seq<ChatRequest> {
    if events == [] then []
    else
      var before := DeliveredTo(events[..|events| - 1], peer);
      match events[|events| - 1]
      case Reset(p) => if p == peer then [] else before
      case Arrive(p, msg) =>
        if p == peer then before + Deliveries(Run(events[..|events| - 1]), peer, msg) else before
  }

  /** The deliveries are arrived messages numbered 1, 2, 3, ... */
  ghost predicate Numbered(delivered: seq<ChatRequest>, arrived: set<ChatRequest>) {
    forall i :: 0 <= i < |delivered| ==> delivered[i] in arrived && delivered[i].seqNo == i + 1
  }

  /** The buffer holds the arrived messages numbered next and up, each under its number. */
  ghost predicate Waits(buf: map<nat, ChatRequest>, next: nat, arrived: set<ChatRequest>) {
    && (forall m :: m in arrived && next <= m.seqNo ==> m.seqNo in buf)
    && (forall s :: s in buf ==> next <= s && buf[s] in arrived && buf[s].seqNo == s)
  }

  /** The deliveries are arrived messages numbered 1, 2, ..., last; nothing numbered
      last + 1 has arrived; the buffer holds exactly the later numbers that did. */
  ghost predicate InOrder(last: nat, buf: map<nat, ChatRequest>, arrived: set<ChatRequest>,
      delivered: seq<ChatRequest>) {
    && |delivered| == last
    && Numbered(delivered, arrived)
    && (forall m :: m in arrived ==> m.seqNo != last + 1)
    && Waits(buf, last + 1, arrived)
  }

  lemma NumberedSnoc(delivered: seq<ChatRequest>, m: ChatRequest, arrived: set<ChatRequest>)
    requires Numbered(delivered, arrived) && m in arrived && m.seqNo == |delivered| + 1
    ensures Numbered(delivered + [m], arrived)
  {
  }

  lemma WaitsForNext(buf: map<nat, ChatRequest>, next: nat, arrived: set<ChatRequest>)
    requires Waits(buf, next, arrived)
    ensures Waits(buf - {next}, next + 1, arrived)
  {
  }

  lemma {:induction false} FlushKeepsOrder(
    buf: map<nat, ChatRequest>, next: nat, arrived: set<ChatRequest>, delivered: seq<ChatRequest>)
    requires 1 <= next && |delivered| == next - 1
    requires Numbered(delivered, arrived) && Waits(buf, next, arrived)
    ensures InOrder(next - 1 + |Contiguous(buf, next)|, Remaining(buf, next), arrived,
      delivered + Contiguous(buf, next))
    decreases |buf|
  {
    if next in buf {
      var rest := buf - {next};
      WaitsForNext(buf, next, arrived);
      NumberedSnoc(delivered, buf[next], arrived);
      FlushKeepsOrder(rest, next + 1, arrived, delivered + [buf[next]]);
      assert delivered + [buf[next]] + Contiguous(rest, next + 1)
        == delivered + ([buf[next]] + Contiguous(rest, next + 1));
    } else {
      assert delivered + Contiguous(buf, next) == delivered;
    }
  }

  lemma EarlyKeepsOrder(last: nat, buf: map<nat, ChatRequest>, msg: ChatRequest,
                        arrived: set<ChatRequest>, delivered: seq<ChatRequest>)
    requires InOrder(last, buf, arrived, delivered)
    requires msg.seqNo != last + 1
    ensures var buf' := if msg.seqNo <= last then buf else buf[msg.seqNo as nat := msg];
      InOrder(last, buf', arrived + {msg}, delivered)
  {
  }

  lemma NextKeepsOrder(last: nat, buf: map<nat, ChatRequest>, msg: ChatRequest,
                       arrived: set<ChatRequest>, delivered: seq<ChatRequest>)
    requires InOrder(last, buf, arrived, delivered)
    requires msg.seqNo == last + 1
    ensures var run := [msg] + Contiguous(buf, last + 2);
      InOrder(last + |run|, Remaining(buf, last + 2), arrived + {msg}, delivered + run)
  {
    assert Waits(buf, last + 2, arrived + {msg});
    NumberedSnoc(delivered, msg, arrived + {msg});
    FlushKeepsOrder(buf, last + 2, arrived + {msg}, delivered + [msg]);
    assert delivered + [msg] + Contiguous(buf, last + 2) == delivered + ([msg] + Contiguous(buf, last + 2));
  }

  lemma IngestKeepsOrder(t: Tracker, peer: string, msg: ChatRequest, arrived: set<ChatRequest>,
      delivered: seq<ChatRequest>)
    requires InOrder(t.LastOf(peer), t.BufferOf(peer), arrived, delivered)
    ensures var t' := Ingested(t, peer, msg);
      InOrder(t'.LastOf(peer), t'.BufferOf(peer), arrived + {msg}, delivered + Deliveries(t, peer, msg))
  {
    var last := t.LastOf(peer);
    if msg.seqNo == last + 1 {
      NextKeepsOrder(last, t.BufferOf(peer), msg, arrived, delivered);
    } else {
      EarlyKeepsOrder(last, t.BufferOf(peer), msg, arrived, delivered);
      assert delivered + Deliveries(t, peer, msg) == delivered;
    }
  }

  /** Every run, every peer: what was delivered since the last reset is exactly the
      numbers 1..k of what arrived since then, k being as large as possible, and
      exactly the arrived numbers beyond the gap are waiting. */
  lemma {:induction false} DeliveryIsInOrder(events: seq<Event>, peer: string)
    ensures InOrder(Run(events).LastOf(peer), Run(events).BufferOf(peer),
                    Arrivals(events, peer), DeliveredTo(events, peer))
  {
    if events != [] {
      var before := events[..|events| - 1];
      DeliveryIsInOrder(before, peer);
      match events[|events| - 1]
      case Reset(p) =>
      case Arrive(p, msg) =>
        if p == peer {
          IngestKeepsOrder(Run(before), peer, msg, Arrivals(before, peer), DeliveredTo(before, peer));
        }
    }
  }

  /** In every run what waits is filed under its own number, beyond the missing one. */
  lemma {:induction false} RunIsWellNumbered(events: seq<Event>)
    ensures WellNumbered(Run(events))
  {
    if events != [] {
      RunIsWellNumbered(events[..|events| - 1]);
      match events[|events| - 1]
      case Reset(_) =>
      case Arrive(peer, msg) => StaysWellNumbered(Run(events[..|events| - 1]), peer, msg);
    }
  }

  ghost function SeqNos(msgs: set<ChatRequest>): set<u64> {
    set m | m in msgs :: m.seqNo
  }

  ghost predicate AllArrived(numbers: set<u64>, n: u64) {
    forall k: u64 :: 1 <= k <= n ==> k in numbers
  }

  /** Over every run: number n has been delivered since the last reset exactly if all of
      1, ..., n have arrived since then; in particular number 0 never is. */
  lemma DeliveredIffAllArrived(events: seq<Event>, peer: string, n: u64)
    ensures (exists m :: m in DeliveredTo(events, peer) && m.seqNo == n)
       <==> 1 <= n && AllArrived(SeqNos(Arrivals(events, peer)), n)
  {
    DeliveryIsInOrder(events, peer);
    var last, delivered, arrived := Run(events).LastOf(peer), DeliveredTo(events, peer), Arrivals(events, peer);
    assert last + 1 !in SeqNos(arrived);
    assert forall m :: m in delivered ==> 1 <= m.seqNo <= last;
    if 1 <= n <= last {
      assert delivered[n - 1] in delivered && delivered[n - 1].seqNo == n;
      forall k: u64 | 1 <= k <= n
        ensures k in SeqNos(arrived)
      {
        assert delivered[k - 1] in arrived && delivered[k - 1].seqNo == k;
      }
    } else if 1 <= n {
      var gap: u64 := last + 1;
      assert 1 <= gap <= n && gap !in SeqNos(arrived);
    }
  }

  /** Half of confluence: what one side delivered, the other side delivered too. */
  lemma DeliveredByBoth(
    last: nat, buf: map<nat, ChatRequest>, arrived: set<ChatRequest>, delivered: seq<ChatRequest>,
    last': nat, buf': map<nat, ChatRequest>, arrived': set<ChatRequest>, delivered': seq<ChatRequest>)
    requires InOrder(last, buf, arrived, delivered) && InOrder(last', buf', arrived', delivered')
    requires SeqNos(arrived) <= SeqNos(arrived')
    ensures last <= last'
    ensures last == last' ==> buf.Keys <= buf'.Keys
  {
    assert last' < last ==> delivered[last'].seqNo in SeqNos(arrived);
    assert last' + 1 !in SeqNos(arrived');
    if last == last' {
      forall s | s in buf
        ensures s in buf'
      {
        assert buf[s].seqNo in SeqNos(arrived');
      }
    }
  }

  /** Arrival order and repetition do not matter.  Two runs in which the same
      sequence numbers arrived from a peer, and in which messages with one number
      look alike under an observation f, have made the same deliveries (under f)
      and wait for the same message with the same buffer (under f).  A retried copy
      differs from the first one in ts alone, so f may be any reading but ts. */
  lemma Confluence<T(!new)>(one: seq<Event>, two: seq<Event>, peer: string, f: ChatRequest -> T)
    requires SeqNos(Arrivals(one, peer)) == SeqNos(Arrivals(two, peer))
    requires forall m, m' ::
      m in Arrivals(one, peer) && m' in Arrivals(two, peer) && m.seqNo == m'.seqNo ==> f(m) == f(m')
    ensures Run(one).LastOf(peer) == Run(two).LastOf(peer)
    ensures var d1, d2 := DeliveredTo(one, peer), DeliveredTo(two, peer);
      |d1| == |d2| && forall i :: 0 <= i < |d1| ==> f(d1[i]) == f(d2[i])
    ensures var b1, b2 := Run(one).BufferOf(peer), Run(two).BufferOf(peer);
      b1.Keys == b2.Keys && forall s :: s in b1 ==> f(b1[s]) == f(b2[s])
  {
    DeliveryIsInOrder(one, peer);
    DeliveryIsInOrder(two, peer);
    var t1, a1, d1 := Run(one), Arrivals(one, peer), DeliveredTo(one, peer);
    var t2, a2, d2 := Run(two), Arrivals(two, peer), DeliveredTo(two, peer);
    DeliveredByBoth(t1.LastOf(peer), t1.BufferOf(peer), a1, d1, t2.LastOf(peer), t2.BufferOf(peer), a2, d2);
    DeliveredByBoth(t2.LastOf(peer), t2.BufferOf(peer), a2, d2, t1.LastOf(peer), t1.BufferOf(peer), a1, d1);
  }
}
