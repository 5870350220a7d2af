/** The two tables behind the daemon: `messages`, the offline queue, and
    `pending`, the crash-safe copy of what is in flight. */
module MessageQueue {
  import opened Base

  // ── The messages table ──────────────────────────────────────────────

  datatype MessageRow = MessageRow(
    id: nat, peer: string, content: Text, retries: nat, lastError: Option<string>,
    delivered: bool, expiresAt: Option<i64>)

  /** Not expired: no expiry, or an expiry still ahead. */
  predicate Alive(expiresAt: Option<i64>, now: i64) {
    expiresAt.None? || now < expiresAt.value
  }

  function WaitingFor(peer: string, now: i64): MessageRow -> bool {
    (r: MessageRow) => r.peer == peer && !r.delivered && Alive(r.expiresAt, now)
  }

  function Waiting(now: i64): MessageRow -> bool {
    (r: MessageRow) => !r.delivered && Alive(r.expiresAt, now)
  }

  function NotPurgedAt(cutoff: i64): MessageRow -> bool {
    (r: MessageRow) => r.delivered || Alive(r.expiresAt, cutoff)
  }

  function NotDelivered(): MessageRow -> bool {
    (r: MessageRow) => !r.delivered
  }

  function PendingFor(rows: seq<MessageRow>, peer: string, now: i64): seq<MessageRow> {
    Filter(rows, WaitingFor(peer, now))
  }

  /** All waiting rows, by peer and then by id. */
  function AllPending(rows: seq<MessageRow>, now: i64): seq<MessageRow> {
    OrderByPeer(Filter(rows, Waiting(now)))
  }

  function Pushed(id: nat, peer: string, content: Text, expiresAt: Option<i64>): MessageRow {
    MessageRow(id, peer, content, 0, None, false, expiresAt)
  }

  function MarkedDelivered(rows: seq<MessageRow>, id: nat): seq<MessageRow> {
    seq(|rows|, i requires 0 <= i < |rows| => if rows[i].id == id then rows[i].(delivered := true) else rows[i])
  }

  function MarkedFailed(rows: seq<MessageRow>, id: nat, error: string): seq<MessageRow> {
    seq(|rows|, i requires 0 <= i < |rows| =>
      if rows[i].id == id then rows[i].(retries := rows[i].retries + 1, lastError := Some(error)) else rows[i])
  }

  // ── ORDER BY peer ───────────────────────────────────────────────────

  /** Order of peer names: by code point, a prefix first. */
  predicate Leq(a: string, b: string) {
    if a == [] then true
    else if b == [] then false
    else if a[0] != b[0] then a[0] < b[0]
    else Leq(a[1..], b[1..])
  }

  predicate Less(a: string, b: string) {
    a != b && Leq(a, b)
  }

  lemma {:induction false} LeqTotal(a: string, b: string)
    ensures Leq(a, b) || Leq(b, a)
    ensures Leq(a, b) && Leq(b, a) ==> a == b
  {
    if a != [] && b != [] {
      LeqTotal(a[1..], b[1..]);
      if a[0] == b[0] && a[1..] == b[1..] {
        assert a == [a[0]] + a[1..] == b;
      }
    }
  }

  lemma {:induction false} LeqTransitive(a: string, b: string, c: string)
    requires Leq(a, b) && Leq(b, c)
    ensures Leq(a, c)
  {
    if a != [] && b != [] && c != [] {
      if a[0] == b[0] == c[0] {
        LeqTransitive(a[1..], b[1..], c[1..]);
      }
    }
  }

  function Insert(r: MessageRow, sorted: seq<MessageRow>): seq<MessageRow> {
    if sorted == [] then [r]
    else if Leq(r.peer, sorted[0].peer) then [r] + sorted
    else [sorted[0]] + Insert(r, sorted[1..])
  }

  /** Rows in table order (ascending id) rearranged by peer, ties left in order. */
  function OrderByPeer(rows: seq<MessageRow>): seq<MessageRow> {
    if rows == [] then [] else Insert(rows[0], OrderByPeer(rows[1..]))
  }

  ghost predicate SortedByPeer(rows: seq<MessageRow>) {
    forall i, j :: 0 <= i < j < |rows| ==> Leq(rows[i].peer, rows[j].peer)
  }

  lemma {:induction false} InsertSorts(r: MessageRow, sorted: seq<MessageRow>)
    requires SortedByPeer(sorted)
    ensures SortedByPeer(Insert(r, sorted))
    ensures forall x :: x in Insert(r, sorted) <==> x == r || x in sorted
  {
    if sorted == [] {
    } else if Leq(r.peer, sorted[0].peer) {
      forall j | 0 <= j < |sorted|
        ensures Leq(r.peer, sorted[j].peer)
      {
        if j > 0 {
          LeqTransitive(r.peer, sorted[0].peer, sorted[j].peer);
        }
      }
    } else {
      LeqTotal(r.peer, sorted[0].peer);
      InsertSorts(r, sorted[1..]);
      var tail := Insert(r, sorted[1..]);
      forall j | 0 <= j < |tail|
        ensures Leq(sorted[0].peer, tail[j].peer)
      {
        assert tail[j] in tail;
      }
    }
  }

  lemma {:induction false} OrderSorts(rows: seq<MessageRow>)
    ensures SortedByPeer(OrderByPeer(rows))
    ensures forall x :: x in OrderByPeer(rows) <==> x in rows
  {
    if rows != [] {
      OrderSorts(rows[1..]);
      InsertSorts(rows[0], OrderByPeer(rows[1..]));
      assert forall x :: x in rows <==> x == rows[0] || x in rows[1..];
    }
  }

  function OfPeer(peer: string): MessageRow -> bool {
    (r: MessageRow) => r.peer == peer
  }

  /** Two rows of different peers may change places without any one peer noticing. */
  lemma SwapIsInvisible(a: MessageRow, b: MessageRow, rest: seq<MessageRow>, peer: string)
    requires a.peer != b.peer
    ensures Filter([a] + ([b] + rest), OfPeer(peer)) == Filter([b] + ([a] + rest), OfPeer(peer))
  {
    FilterCons(a, [b] + rest, OfPeer(peer));
    FilterCons(b, [a] + rest, OfPeer(peer));
    FilterCons(b, rest, OfPeer(peer));
    FilterCons(a, rest, OfPeer(peer));
  }

  lemma {:induction false} InsertIsStable(r: MessageRow, sorted: seq<MessageRow>, peer: string)
    requires SortedByPeer(sorted)
    ensures Filter(Insert(r, sorted), OfPeer(peer)) == Filter([r] + sorted, OfPeer(peer))
  {
    if sorted != [] && !Leq(r.peer, sorted[0].peer) {
      var first, rest := sorted[0], sorted[1..];
      InsertIsStable(r, rest, peer);
      LeqTotal(first.peer, first.peer);
      FilterCons(first, Insert(r, rest), OfPeer(peer));
      FilterCons(first, [r] + rest, OfPeer(peer));
      SwapIsInvisible(first, r, rest, peer);
      assert sorted == [first] + rest;
    }
  }

  lemma {:induction false} OrderIsStable(rows: seq<MessageRow>, peer: string)
    ensures Filter(OrderByPeer(rows), OfPeer(peer)) == Filter(rows, OfPeer(peer))
  {
    if rows != [] {
      OrderIsStable(rows[1..], peer);
      OrderSorts(rows[1..]);
      InsertIsStable(rows[0], OrderByPeer(rows[1..]), peer);
      FilterAppend([rows[0]], OrderByPeer(rows[1..]), OfPeer(peer));
      FilterAppend([rows[0]], rows[1..], OfPeer(peer));
      assert [rows[0]] + rows[1..] == rows;
    }
  }

  ghost predicate Ascending(peers: seq<string>) {
    forall i, j :: 0 <= i < j < |peers| ==> Less(peers[i], peers[j])
  }

  function PartsOf(rows: seq<MessageRow>, peers: seq<string>): seq<seq<MessageRow>> {
    seq(|peers|, i requires 0 <= i < |peers| => Filter(rows, OfPeer(peers[i])))
  }

  function NotOfPeer(peer: string): MessageRow -> bool {
    (r: MessageRow) => r.peer != peer
  }

  lemma NoneOfPeer(rows: seq<MessageRow>, peer: string)
    requires SortedByPeer(rows) && rows != [] && Leq(peer, rows[0].peer) && rows[0].peer != peer
    ensures forall r :: r in rows ==> r.peer != peer
  {
    forall r | r in rows
      ensures r.peer != peer
    {
      var i :| 0 <= i < |rows| && rows[i] == r;
      LeqTotal(peer, rows[0].peer);
    }
  }

  /** The rows of the least peer stand in front. */
  lemma {:induction false} LeastPeerFirst(rows: seq<MessageRow>, peer: string)
    requires SortedByPeer(rows)
    requires forall r :: r in rows ==> Leq(peer, r.peer)
    ensures rows == Filter(rows, OfPeer(peer)) + Filter(rows, NotOfPeer(peer))
  {
    if rows != [] {
      if rows[0].peer == peer {
        var rest := rows[1..];
        LeastPeerFirst(rest, peer);
        assert rows == [rows[0]] + rest;
        FilterCons(rows[0], rest, OfPeer(peer));
        FilterCons(rows[0], rest, NotOfPeer(peer));
        Associative([rows[0]], Filter(rest, OfPeer(peer)), Filter(rest, NotOfPeer(peer)));
      } else {
        NoneOfPeer(rows, peer);
        FilterNone(rows, OfPeer(peer));
        FilterAll(rows, NotOfPeer(peer));
      }
    }
  }

  lemma SuffixIsSorted(first: seq<MessageRow>, rest: seq<MessageRow>)
    requires SortedByPeer(first + rest)
    ensures SortedByPeer(rest)
  {
    var rows := first + rest;
    forall i, j | 0 <= i < j < |rest|
      ensures Leq(rest[i].peer, rest[j].peer)
    {
      assert rest[i] == rows[|first| + i] && rest[j] == rows[|first| + j];
    }
  }

  lemma RestIsSorted(rows: seq<MessageRow>, least: string)
    requires SortedByPeer(rows)
    requires forall r :: r in rows ==> Leq(least, r.peer)
    ensures SortedByPeer(Filter(rows, NotOfPeer(least)))
  {
    LeastPeerFirst(rows, least);
    SuffixIsSorted(Filter(rows, OfPeer(least)), Filter(rows, NotOfPeer(least)));
  }

  lemma PartsOfRest(rows: seq<MessageRow>, peers: seq<string>)
    requires Ascending(peers) && peers != []
    ensures PartsOf(Filter(rows, NotOfPeer(peers[0])), peers[1..]) == PartsOf(rows, peers)[1..]
  {
    var rest := Filter(rows, NotOfPeer(peers[0]));
    forall i | 0 <= i < |peers| - 1
      ensures PartsOf(rest, peers[1..])[i] == PartsOf(rows, peers)[1..][i]
    {
      assert Less(peers[0], peers[i + 1]);
      FilterTwice(rows, NotOfPeer(peers[0]), OfPeer(peers[i + 1]), OfPeer(peers[i + 1]));
    }
  }

  lemma {:induction false} SortedIsConcatenation(rows: seq<MessageRow>, peers: seq<string>)
    requires SortedByPeer(rows) && Ascending(peers)
    requires forall r :: r in rows ==> r.peer in peers
    ensures rows == Concat(PartsOf(rows, peers))
    decreases |peers|
  {
    assert rows != [] ==> rows[0] in rows;
    if peers != [] {
      var least := peers[0];
      LeqTotal(least, least);
      assert forall p :: p in peers ==> Leq(least, p);
      LeastPeerFirst(rows, least);
      RestIsSorted(rows, least);
      FilterMembers(rows, NotOfPeer(least));
      SortedIsConcatenation(Filter(rows, NotOfPeer(least)), peers[1..]);
      PartsOfRest(rows, peers);
    }
  }

  /** all_pending lists the peers in ascending order, each with exactly its own
      pending_for answer: whatever ascending list of names covers the waiting rows. */
  lemma AllPendingIsConcatenation(rows: seq<MessageRow>, peers: seq<string>, now: i64)
    requires Ascending(peers)
    requires forall r :: r in rows && Waiting(now)(r) ==> r.peer in peers
    ensures AllPending(rows, now)
         == Concat(seq(|peers|, i requires 0 <= i < |peers| => PendingFor(rows, peers[i], now)))
  {
    var waiting := Filter(rows, Waiting(now));
    FilterMembers(rows, Waiting(now));
    OrderSorts(waiting);
    SortedIsConcatenation(OrderByPeer(waiting), peers);
    var parts := seq(|peers|, i requires 0 <= i < |peers| => PendingFor(rows, peers[i], now));
    forall i | 0 <= i < |peers|
      ensures PartsOf(OrderByPeer(waiting), peers)[i] == parts[i]
    {
      OrderIsStable(waiting, peers[i]);
      FilterTwice(rows, Waiting(now), OfPeer(peers[i]), WaitingFor(peers[i], now));
    }
    assert PartsOf(OrderByPeer(waiting), peers) == parts;
  }

  // ── The queue is a FIFO per peer ────────────────────────────────────

  datatype Op =
    | Push(peer: string, content: Text, expiresAt: Option<i64>)
    | MarkDelivered(id: nat)
    | MarkFailed(id: nat, error: string)
    | ExpireBefore(cutoff: i64)
    | PruneDelivered

  datatype Table = Table(rows: seq<MessageRow>, lastId: nat)

  function Apply(t: Table, op: Op): Table {
    match op
    case Push(peer, content, expiresAt) =>
      Table(t.rows + [Pushed(t.lastId + 1, peer, content, expiresAt)], t.lastId + 1)
    case MarkDelivered(id) => t.(rows := MarkedDelivered(t.rows, id))
    case MarkFailed(id, error) => t.(rows := MarkedFailed(t.rows, id, error))
    case ExpireBefore(cutoff) => t.(rows := Filter(t.rows, NotPurgedAt(cutoff)))
    case PruneDelivered => t.(rows := Filter(t.rows, NotDelivered()))
  }

  function ApplyAll(ops: seq<Op>): Table {
    if ops == [] then Table([], 0) else Apply(ApplyAll(ops[..|ops| - 1]), ops[|ops| - 1])
  }

  /** What a caller sees of a queued message. */
  datatype Entry = Entry(id: nat, peer: string, content: Text, expiresAt: Option<i64>)

  function EntryOf(r: MessageRow): Entry {
    Entry(r.id, r.peer, r.content, r.expiresAt)
  }

  function Entries(rows: seq<MessageRow>): seq<Entry> {
    seq(|rows|, i requires 0 <= i < |rows| => EntryOf(rows[i]))
  }

  /** Everything ever pushed, in push order; ids count from 1 and are never reused. */
  function PushLog(ops: seq<Op>): seq<Entry> {
    if ops == [] then []
    else
      var log, op := PushLog(ops[..|ops| - 1]), ops[|ops| - 1];
      if op.Push? then log + [Entry(|log| + 1, op.peer, op.content, op.expiresAt)] else log
  }

  function ExpiredIds(log: seq<Entry>, cutoff: i64): set<nat> {
    set e | e in log && !Alive(e.expiresAt, cutoff) :: e.id
  }

  /** The ids marked delivered after they were handed out, and those whose expiry some
      later purge had reached. */
  function Gone(ops: seq<Op>): set<nat> {
    if ops == [] then {}
    else
      var gone, log := Gone(ops[..|ops| - 1]), PushLog(ops[..|ops| - 1]);
      match ops[|ops| - 1]
      case MarkDelivered(id) => if id <= |log| then gone + {id} else gone
      case ExpireBefore(cutoff) => gone + ExpiredIds(log, cutoff)
      case _ => gone
  }

  function Outstanding(gone: set<nat>, peer: string, now: i64): Entry -> bool {
    (e: Entry) => e.peer == peer && e.id !in gone && Alive(e.expiresAt, now)
  }

  function OtherThan(id: nat): Entry -> bool {
    (e: Entry) => e.id != id
  }

  function AliveAt(cutoff: i64): Entry -> bool {
    (e: Entry) => Alive(e.expiresAt, cutoff)
  }

  /** A purge at cutoff is invisible to every question asked at or after it. */
  lemma PurgeIsInvisible(rows: seq<MessageRow>, peer: string, cutoff: i64, now: i64)
    requires cutoff <= now
    ensures PendingFor(Filter(rows, NotPurgedAt(cutoff)), peer, now) == PendingFor(rows, peer, now)
    ensures PendingFor(Filter(rows, NotDelivered()), peer, now) == PendingFor(rows, peer, now)
    ensures AllPending(Filter(rows, NotPurgedAt(cutoff)), now) == AllPending(rows, now)
  {
    FilterTwice(rows, NotPurgedAt(cutoff), WaitingFor(peer, now), WaitingFor(peer, now));
    FilterTwice(rows, NotDelivered(), WaitingFor(peer, now), WaitingFor(peer, now));
    FilterTwice(rows, NotPurgedAt(cutoff), Waiting(now), Waiting(now));
  }

  lemma PendingForAppend(a: seq<MessageRow>, b: seq<MessageRow>, peer: string, now: i64)
    ensures Entries(PendingFor(a + b, peer, now))
         == Entries(PendingFor(a, peer, now)) + Entries(PendingFor(b, peer, now))
  {
    FilterAppend(a, b, WaitingFor(peer, now));
  }

  lemma {:induction false} MarkRemovesOne(rows: seq<MessageRow>, id: nat, peer: string, now: i64)
    ensures Entries(PendingFor(MarkedDelivered(rows, id), peer, now))
         == Filter(Entries(PendingFor(rows, peer, now)), OtherThan(id))
  {
    if rows != [] {
      MarkRemovesOne(rows[1..], id, peer, now);
      var first := MarkedDelivered(rows, id)[0];
      assert MarkedDelivered(rows, id) == [first] + MarkedDelivered(rows[1..], id);
      assert rows == [rows[0]] + rows[1..];
      PendingForAppend([first], MarkedDelivered(rows[1..], id), peer, now);
      PendingForAppend([rows[0]], rows[1..], peer, now);
      FilterAppend(Entries(PendingFor([rows[0]], peer, now)), Entries(PendingFor(rows[1..], peer, now)), OtherThan(id));
      assert Entries(PendingFor([first], peer, now))
        == Filter(Entries(PendingFor([rows[0]], peer, now)), OtherThan(id));
    }
  }

  lemma {:induction false} FailureIsInvisible(rows: seq<MessageRow>, id: nat, error: string, peer: string, now: i64)
    ensures Entries(PendingFor(MarkedFailed(rows, id, error), peer, now)) == Entries(PendingFor(rows, peer, now))
  {
    if rows != [] {
      FailureIsInvisible(rows[1..], id, error, peer, now);
      var first := MarkedFailed(rows, id, error)[0];
      assert MarkedFailed(rows, id, error) == [first] + MarkedFailed(rows[1..], id, error);
      assert rows == [rows[0]] + rows[1..];
      PendingForAppend([first], MarkedFailed(rows[1..], id, error), peer, now);
      PendingForAppend([rows[0]], rows[1..], peer, now);
      assert Entries(PendingFor([first], peer, now)) == Entries(PendingFor([rows[0]], peer, now));
    }
  }

  lemma {:induction false} LastIdCountsPushes(ops: seq<Op>)
    ensures ApplyAll(ops).lastId == |PushLog(ops)|
    ensures forall e :: e in PushLog(ops) ==> 1 <= e.id <= |PushLog(ops)|
  {
    if ops != [] {
      LastIdCountsPushes(ops[..|ops| - 1]);
    }
  }

  lemma PushedIsOutstanding(row: MessageRow, gone: set<nat>, peer: string, now: i64)
    requires row.id !in gone && !row.delivered
    ensures Entries(PendingFor([row], peer, now)) == Filter([EntryOf(row)], Outstanding(gone, peer, now))
  {
    FilterOne(row, WaitingFor(peer, now));
    FilterOne(EntryOf(row), Outstanding(gone, peer, now));
  }

  lemma PushExtends(t: Table, log: seq<Entry>, gone: set<nat>, op: Op, peer: string, now: i64)
    requires op.Push? && t.lastId == |log|
    requires |log| + 1 !in gone
    requires Entries(PendingFor(t.rows, peer, now)) == Filter(log, Outstanding(gone, peer, now))
    ensures Entries(PendingFor(Apply(t, op).rows, peer, now))
         == Filter(log + [Entry(|log| + 1, op.peer, op.content, op.expiresAt)], Outstanding(gone, peer, now))
  {
    var row := Pushed(t.lastId + 1, op.peer, op.content, op.expiresAt);
    PushedIsOutstanding(row, gone, peer, now);
    PendingForAppend(t.rows, [row], peer, now);
    FilterAppend(log, [EntryOf(row)], Outstanding(gone, peer, now));
  }

  lemma {:induction false} LogIsNumbered(ops: seq<Op>)
    ensures forall i :: 0 <= i < |PushLog(ops)| ==> PushLog(ops)[i].id == i + 1
  {
    if ops != [] {
      LogIsNumbered(ops[..|ops| - 1]);
    }
  }

  lemma {:induction false} GoneAreOld(ops: seq<Op>)
    ensures forall id :: id in Gone(ops) ==> id <= |PushLog(ops)|
  {
    if ops != [] {
      GoneAreOld(ops[..|ops| - 1]);
      LogIsNumbered(ops[..|ops| - 1]);
    }
  }

  function RowAliveAt(cutoff: i64): MessageRow -> bool {
    (r: MessageRow) => Alive(r.expiresAt, cutoff)
  }

  lemma {:induction false} EntriesOfAlive(rows: seq<MessageRow>, cutoff: i64)
    ensures Entries(Filter(rows, RowAliveAt(cutoff))) == Filter(Entries(rows), AliveAt(cutoff))
  {
    if rows != [] {
      var first, rest := rows[0], rows[1..];
      EntriesOfAlive(rest, cutoff);
      assert Entries(rows) == [EntryOf(first)] + Entries(rest);
      FilterCons(EntryOf(first), Entries(rest), AliveAt(cutoff));
    }
  }

  /** A purge takes from an answer exactly what had expired at its cutoff. */
  lemma PurgeRemovesExpired(rows: seq<MessageRow>, cutoff: i64, peer: string, now: i64)
    ensures Entries(PendingFor(Filter(rows, NotPurgedAt(cutoff)), peer, now))
         == Filter(Entries(PendingFor(rows, peer, now)), AliveAt(cutoff))
  {
    var both := (r: MessageRow) => WaitingFor(peer, now)(r) && RowAliveAt(cutoff)(r);
    FilterTwice(rows, NotPurgedAt(cutoff), WaitingFor(peer, now), both);
    FilterTwice(rows, WaitingFor(peer, now), RowAliveAt(cutoff), both);
    EntriesOfAlive(PendingFor(rows, peer, now), cutoff);
  }

  lemma ExpiredById(log: seq<Entry>, e: Entry, cutoff: i64)
    requires e in log && forall i :: 0 <= i < |log| ==> log[i].id == i + 1
    ensures e.id in ExpiredIds(log, cutoff) <==> !Alive(e.expiresAt, cutoff)
  {
    if e.id in ExpiredIds(log, cutoff) {
      var e' :| e' in log && !Alive(e'.expiresAt, cutoff) && e'.id == e.id;
      var i, j :| 0 <= i < |log| && log[i] == e && 0 <= j < |log| && log[j] == e';
      assert i == j;
    }
  }

  /** Under any interleaving of operations, whatever the purge times: pending_for answers
      with the peer's outstanding pushes in push order. */
  lemma {:induction false} QueueIsFifo(ops: seq<Op>, peer: string, now: i64)
    ensures Entries(PendingFor(ApplyAll(ops).rows, peer, now))
      == Filter(PushLog(ops), Outstanding(Gone(ops), peer, now))
  {
    if ops != [] {
      var before, op := ops[..|ops| - 1], ops[|ops| - 1];
      var t, log, gone := ApplyAll(before), PushLog(before), Gone(before);
      QueueIsFifo(before, peer, now);
      LastIdCountsPushes(before);
      match op
      case Push(p, content, expiresAt) =>
        GoneAreOld(before);
        PushExtends(t, log, gone, op, peer, now);
      case MarkDelivered(id) =>
        MarkRemovesOne(t.rows, id, peer, now);
        FilterTwice(log, Outstanding(gone, peer, now), OtherThan(id), Outstanding(Gone(ops), peer, now));
      case MarkFailed(id, error) => FailureIsInvisible(t.rows, id, error, peer, now);
      case ExpireBefore(cutoff) =>
        PurgeRemovesExpired(t.rows, cutoff, peer, now);
        LogIsNumbered(before);
        forall e | e in log
          ensures e.id in ExpiredIds(log, cutoff) <==> !Alive(e.expiresAt, cutoff)
        {
          ExpiredById(log, e, cutoff);
        }
        FilterTwice(log, Outstanding(gone, peer, now), AliveAt(cutoff), Outstanding(Gone(ops), peer, now));
      case PruneDelivered => PurgeIsInvisible(t.rows, peer, now, now);
    }
  }

  // ── The pending table ───────────────────────────────────────────────

  /** SQLite integers are signed: u64 fields are stored reinterpreted as i64. */
  function AsI64(u: u64): i64 {
    if u < TWO_TO_THE_63 then u else u - TWO_TO_THE_64
  }

  function AsU64(i: i64): u64 {
    if 0 <= i then i else i + TWO_TO_THE_64
  }

  /** The casts lose nothing, in either direction, and keep the value modulo 2^64. */
  lemma CastsRoundTrip(u: u64, i: i64)
    ensures AsU64(AsI64(u)) == u && AsI64(AsU64(i)) == i
    ensures u - AsI64(u) == 0 || u - AsI64(u) == 0x1_0000_0000_0000_0000
  {
  }

  /** A row as stored, with the casts applied. */
  datatype PendingRow = PendingRow(
    peer: string, from: string, content: Text, ts: i64, msgId: i64, ttl: i64, seqNo: i64,
    retries: nat, createdAt: i64)

  /** A row as loaded, with the casts undone. */
  datatype StoredPending = StoredPending(
    requestId: u64, peer: string, from: string, content: Text, ts: i64, msgId: u64, ttl: i64, seqNo: u64,
    retries: nat, createdAt: i64)

  type PendingTable = map<i64, PendingRow>

  function RowOf(s: StoredPending): PendingRow {
    PendingRow(s.peer, s.from, s.content, s.ts, AsI64(s.msgId), s.ttl, AsI64(s.seqNo), s.retries, s.createdAt)
  }

  function Loaded(key: i64, row: PendingRow): StoredPending {
    StoredPending(AsU64(key), row.peer, row.from, row.content, row.ts, AsU64(row.msgId), row.ttl, AsU64(row.seqNo),
                  row.retries, row.createdAt)
  }

  /** INSERT OR REPLACE. */
  function WithRow(table: PendingTable, s: StoredPending): PendingTable {
    table[AsI64(s.requestId) := RowOf(s)]
  }

  function WithoutRow(table: PendingTable, requestId: u64): PendingTable {
    table - {AsI64(requestId)}
  }

  function LiveRows(table: PendingTable, cutoff: i64): PendingTable {
    map k | k in table && cutoff <= table[k].ttl :: table[k]
  }

  /** Storing and loading a row gives the same u64 values back. */
  lemma StoreThenLoad(table: PendingTable, s: StoredPending)
    ensures var key := AsI64(s.requestId);
      key in WithRow(table, s) && Loaded(key, WithRow(table, s)[key]) == s
  {
    CastsRoundTrip(s.requestId, 0);
    CastsRoundTrip(s.msgId, 0);
    CastsRoundTrip(s.seqNo, 0);
  }

  /** A possible answer order of the table's keys under ORDER BY created_at. */
  ghost predicate IsLoadOrder(table: PendingTable, keys: seq<i64>) {
    && (forall k :: k in keys <==> k in table)
    && (forall i, j :: 0 <= i < j < |keys| ==> keys[i] != keys[j])
    && (forall i, j :: 0 <= i < j < |keys| ==> table[keys[i]].createdAt <= table[keys[j]].createdAt)
  }

  function LoadedAll(table: PendingTable, keys: seq<i64>): seq<StoredPending>
    requires forall k :: k in keys ==> k in table
  {
    seq(|keys|, i requires 0 <= i < |keys| => Loaded(keys[i], table[keys[i]]))
  }

  lemma {:induction false} EarliestExists(table: PendingTable, keys: set<i64>)
    requires keys != {} && keys <= table.Keys
    ensures exists k :: k in keys && forall k' :: k' in keys ==> table[k].createdAt <= table[k'].createdAt
  {
    var k :| k in keys;
    if keys != {k} {
      EarliestExists(table, keys - {k});
      var e :| e in keys - {k} && forall k' :: k' in keys - {k} ==> table[e].createdAt <= table[k'].createdAt;
      var best := if table[k].createdAt <= table[e].createdAt then k else e;
      assert forall k' :: k' in keys ==> table[best].createdAt <= table[k'].createdAt;
    }
  }

  /** keys lists, oldest first, the rows no longer left, and nothing left is older. */
  ghost predicate Taken(table: PendingTable, keys: seq<i64>, left: set<i64>) {
    && left <= table.Keys
    && (forall k :: k in keys <==> k in table && k !in left)
    && (forall i, j :: 0 <= i < j < |keys| ==> keys[i] != keys[j])
    && (forall i, j :: 0 <= i < j < |keys| ==> table[keys[i]].createdAt <= table[keys[j]].createdAt)
    && (forall k, l :: k in keys && l in left ==> table[k].createdAt <= table[l].createdAt)
  }

  lemma TakeOldest(table: PendingTable, keys: seq<i64>, left: set<i64>, k: i64)
    requires Taken(table, keys, left)
    requires k in left && forall k' :: k' in left ==> table[k].createdAt <= table[k'].createdAt
    ensures Taken(table, keys + [k], left - {k})
  {
    assert forall x :: x in keys + [k] <==> x in keys || x == k;
    assert forall i :: 0 <= i < |keys| ==> keys[i] in keys;
  }

  // ── The database handle ─────────────────────────────────────────────

  class Queue {
    var messages: seq<MessageRow>
    var lastId: nat
    var pending: PendingTable

    constructor ()
      ensures messages == [] && lastId == 0 && pending == map[]
    {
      messages, lastId, pending := [], 0, map[];
    }

    method PushWithTtl(peer: string, content: Text, expiresAt: Option<i64>) returns (id: nat)
      modifies this`messages, this`lastId
      ensures id == lastId == old(lastId) + 1
      ensures messages == old(messages) + [MessageRow(id, peer, content, 0, None, false, expiresAt)]
      ensures Table(messages, lastId) == Apply(Table(old(messages), old(lastId)), Push(peer, content, expiresAt))
    {
      lastId := lastId + 1;
      messages := messages + [Pushed(lastId, peer, content, expiresAt)];
      return lastId;
    }

    method MarkDelivered(id: nat)
      modifies this`messages
      ensures messages == MarkedDelivered(old(messages), id)
      ensures |messages| == |old(messages)|
      ensures forall i :: 0 <= i < |messages| ==>
        messages[i] == old(messages)[i].(delivered := old(messages)[i].delivered || old(messages)[i].id == id)
    {
      messages := MarkedDelivered(messages, id);
    }

    method MarkFailed(id: nat, error: string)
      modifies this`messages
      ensures messages == MarkedFailed(old(messages), id, error)
      ensures |messages| == |old(messages)|
      ensures forall i :: 0 <= i < |messages| ==>
        messages[i] == if old(messages)[i].id != id then old(messages)[i]
                       else old(messages)[i].(retries := old(messages)[i].retries + 1, lastError := Some(error))
    {
      messages := MarkedFailed(messages, id, error);
    }

    /** Delete expired undelivered rows; the row count is what the caller logs. */
    method ExpireBefore(cutoff: i64) returns (removed: nat)
      modifies this`messages
      ensures messages == Filter(old(messages), NotPurgedAt(cutoff))
      ensures removed == |old(messages)| - |messages|
      ensures forall r :: r in messages <==>
        r in old(messages) && (r.delivered || r.expiresAt.None? || cutoff < r.expiresAt.value)
    {
      FilterIsShorter(messages, NotPurgedAt(cutoff));
      FilterMembers(messages, NotPurgedAt(cutoff));
      removed := |messages| - |Filter(messages, NotPurgedAt(cutoff))|;
      messages := Filter(messages, NotPurgedAt(cutoff));
    }

    method PruneDelivered() returns (removed: nat)
      modifies this`messages
      ensures messages == Filter(old(messages), NotDelivered())
      ensures removed == |old(messages)| - |messages|
      ensures forall r :: r in messages <==> r in old(messages) && !r.delivered
    {
      FilterIsShorter(messages, NotDelivered());
      FilterMembers(messages, NotDelivered());
      removed := |messages| - |Filter(messages, NotDelivered())|;
      messages := Filter(messages, NotDelivered());
    }

    method PushPending(row: StoredPending)
      modifies this`pending
      ensures pending == WithRow(old(pending), row)
      ensures var key := AsI64(row.requestId);
        && key in pending && Loaded(key, pending[key]) == row
        && forall k :: k != key ==>
             (k in pending <==> k in old(pending)) && (k in pending ==> pending[k] == old(pending)[k])
    {
      StoreThenLoad(pending, row);
      pending := WithRow(pending, row);
    }

    method RemovePending(requestId: u64)
      modifies this`pending
      ensures pending == WithoutRow(old(pending), requestId)
      ensures forall k :: k in pending <==> k in old(pending) && k != AsI64(requestId)
      ensures forall k :: k in pending ==> pending[k] == old(pending)[k]
    {
      pending := WithoutRow(pending, requestId);
    }

    method ExpirePending(cutoff: i64) returns (removed: nat)
      modifies this`pending
      ensures pending == LiveRows(old(pending), cutoff)
      ensures forall k :: k in pending <==> k in old(pending) && cutoff <= old(pending)[k].ttl
      ensures forall k :: k in pending ==> pending[k] == old(pending)[k]
      ensures removed == |set k | k in old(pending) && old(pending)[k].ttl < cutoff|
    {
      removed := |set k | k in pending && pending[k].ttl < cutoff|;
      pending := LiveRows(pending, cutoff);
    }

    method Oldest(left: set<i64>) returns (k: i64)
      requires left != {} && left <= pending.Keys
      ensures k in left && forall k' :: k' in left ==> pending[k].createdAt <= pending[k'].createdAt
    {
      EarliestExists(pending, left);
      k :| k in left && forall k' :: k' in left ==> pending[k].createdAt <= pending[k'].createdAt;
    }

    /** Every stored row exactly once, oldest first. */
    method LoadAllPending() returns (rows: seq<StoredPending>, ghost keys: seq<i64>)
      ensures IsLoadOrder(pending, keys) && rows == LoadedAll(pending, keys)
      ensures |rows| == |pending|
      ensures forall i, j :: 0 <= i < j < |rows| ==> rows[i].createdAt <= rows[j].createdAt
      ensures forall i, j :: 0 <= i < j < |keys| ==> keys[i] != keys[j]
      ensures forall k :: k in keys <==> k in pending
    {
      var left := pending.Keys;
      rows, keys := [], [];
      while left != {}
        invariant Taken(pending, keys, left)
        invariant rows == LoadedAll(pending, keys)
        invariant |rows| + |left| == |pending.Keys|
        decreases |left|
      {
        var k := Oldest(left);
        TakeOldest(pending, keys, left, k);
        rows := rows + [Loaded(k, pending[k])];
        keys := keys + [k];
        left := left - {k};
      }
    }
  }
}
