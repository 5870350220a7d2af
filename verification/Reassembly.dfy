/** Putting fragments back together, per sender and message id. */
module Reassembly {
  import opened Base
  import opened Chat
  import opened FragmentCodec

  const FRAGMENT_TTL_SECS := 60

  datatype Session = Session(fragments: map<u32, Text>, total: u32, received: nat, startedAt: i64)

  type Key = (string, u64)
  type Sessions = map<Key, Session>

  function InfoOf(msg: ChatRequest): Option<FragmentInfo> {
    if msg.service.None? || msg.service.value.fragmentInfo.None? then None
    else Decode(msg.service.value.fragmentInfo.value)
  }

  /** The session a fragment goes into: the stored one, or a new one if there is none
      or it has gone stale. */
  function Opened(sessions: Sessions, key: Key, total: u32, now: i64): Session {
    if key in sessions && now - sessions[key].startedAt <= FRAGMENT_TTL_SECS then sessions[key]
    else Session(map[], total, 0, now)
  }

  function Added(s: Session, index: u32, chunk: Text): Session {
    s.(fragments := s.fragments[index := chunk],
       received := if index in s.fragments then s.received else s.received + 1)
  }

  /** The session right after a fragment was put into it. */
  function Filled(sessions: Sessions, sender: string, msg: ChatRequest): Session
    requires InfoOf(msg).Some?
  {
    var info := InfoOf(msg).value;
    Added(Opened(sessions, (sender, info.msgId), info.total, msg.ts), info.index, msg.content)
  }

  predicate Holds(s: Session, n: u32) {
    forall i: u32 :: i < n ==> i in s.fragments
  }

  /** The first n chunks, in index order. */
  function Chunks(s: Session, n: u32): seq<Text>
    requires Holds(s, n)
  {
    seq(n, i requires 0 <= i < n => s.fragments[i])
  }

  predicate Complete(s: Session) {
    Holds(s, s.total)
  }

  function Assembled(s: Session): Text
    requires Complete(s)
  {
    Concat(Chunks(s, s.total))
  }

  function Result(sessions: Sessions, sender: string, msg: ChatRequest): Option<Text> {
    if InfoOf(msg).None? then Some(msg.content)
    else
      var s := Filled(sessions, sender, msg);
      if Complete(s) then Some(Assembled(s)) else None
  }

  function After(sessions: Sessions, sender: string, msg: ChatRequest): Sessions {
    if InfoOf(msg).None? then sessions
    else
      var s, key := Filled(sessions, sender, msg), (sender, InfoOf(msg).value.msgId);
      if Complete(s) then sessions - {key} else sessions[key := s]
  }

  // ── The count test is exact ─────────────────────────────────────────

  ghost predicate Counted(s: Session) {
    s.received == |s.fragments|
  }

  ghost predicate AllCounted(sessions: Sessions) {
    forall k :: k in sessions ==> Counted(sessions[k])
  }

  /** The indices a message of n fragments has. */
  ghost function Below(n: u32): (r: set<u32>)
    ensures |r| == n
    ensures forall i: u32 :: i in r <==> i < n
  {
    if n == 0 then {} else Below(n - 1) + {n - 1}
  }

  lemma SubsetSize(a: set<u32>, b: set<u32>)
    requires a <= b
    ensures |a| <= |b|
  {
    assert b == a + (b - a);
  }

  /** A session with every index below its total has at least total distinct ones, so
      the early count comparison never hides a complete message. */
  lemma CompleteIsCounted(s: Session)
    requires Counted(s) && Complete(s)
    ensures s.total <= s.received
  {
    SubsetSize(Below(s.total), s.fragments.Keys);
  }

  /** received stays the number of distinct buffered indices, whatever arrives. */
  lemma IngestKeepsCounts(sessions: Sessions, sender: string, msg: ChatRequest)
    requires AllCounted(sessions)
    ensures AllCounted(After(sessions, sender, msg))
    ensures InfoOf(msg).Some? ==> Counted(Filled(sessions, sender, msg))
  {
    if InfoOf(msg).Some? {
      var info := InfoOf(msg).value;
      var before := Opened(sessions, (sender, info.msgId), info.total, msg.ts);
      if info.index in before.fragments {
        assert before.fragments[info.index := msg.content].Keys == before.fragments.Keys;
      } else {
        assert before.fragments[info.index := msg.content].Keys == before.fragments.Keys + {info.index};
      }
    }
  }

  /** A message touches no session but its own. */
  lemma OthersUntouched(sessions: Sessions, sender: string, msg: ChatRequest, key: Key)
    requires InfoOf(msg).None? || key != (sender, InfoOf(msg).value.msgId)
    ensures key in After(sessions, sender, msg) <==> key in sessions
    ensures key in sessions ==> After(sessions, sender, msg)[key] == sessions[key]
  {
  }

  class FragmentReassembler {
    var sessions: Sessions

    ghost predicate Valid()
      reads this
    {
      AllCounted(sessions)
    }

    constructor ()
      ensures Valid() && sessions == map[]
    {
      sessions := map[];
    }

    /** Returns the whole message exactly when every index below the session's total
        is buffered; the count comparison in front of the scan changes no answer. */
    method Ingest(sender: string, msg: ChatRequest) returns (content: Option<Text>)
      requires Valid()
      modifies this
      ensures Valid()
      ensures content == Result(old(sessions), sender, msg)
      ensures sessions == After(old(sessions), sender, msg)
    {
      var found := InfoOf(msg);
      if found.None? {
        return Some(msg.content);
      }
      var info := found.value;
      var key := (sender, info.msgId);
      var session := if key in sessions then sessions[key] else Session(map[], info.total, 0, msg.ts);
      if msg.ts - session.startedAt > FRAGMENT_TTL_SECS {
        session := Session(map[], info.total, 0, msg.ts);
      }
      session := Added(session, info.index, msg.content);
      assert session == Filled(sessions, sender, msg);
      IngestKeepsCounts(sessions, sender, msg);
      content := Finish(key, session);
    }

    /** Store the session, and take it out again if it is complete. */
    method Finish(key: Key, session: Session) returns (content: Option<Text>)
      requires Counted(session)
      modifies this
      ensures content == if Complete(session) then Some(Assembled(session)) else None
      ensures sessions == if Complete(session) then old(sessions) - {key} else old(sessions)[key := session]
    {
      sessions := sessions[key := session];
      if session.received >= session.total {
        content := Scan(session);
        if content.Some? {
          sessions := sessions - {key};
          assert sessions == old(sessions) - {key};
        }
      } else {
        if Complete(session) {
          CompleteIsCounted(session);
          assert false;
        }
        content := None;
      }
    }

    /** The index loop over a session, stopping at the first missing chunk. */
    static method Scan(session: Session) returns (content: Option<Text>)
      ensures content == if Complete(session) then Some(Assembled(session)) else None
    {
      var result: Text := [];
      for i := 0 to session.total
        invariant Holds(session, i)
        invariant result == Concat(Chunks(session, i))
      {
        if i !in session.fragments {
          return None;
        }
        ConcatAppend(Chunks(session, i), [session.fragments[i]]);
        assert Chunks(session, i + 1) == Chunks(session, i) + [session.fragments[i]];
        assert Concat([session.fragments[i]]) == session.fragments[i];
        result := result + session.fragments[i];
      }
      return Some(result);
    }

    method PurgeStale(now: i64) returns (purged: nat)
      requires Valid()
      modifies this
      ensures Valid()
      ensures sessions == map k | k in old(sessions) && now - old(sessions)[k].startedAt <= 60 :: old(sessions)[k]
      ensures purged == |old(sessions)| - |sessions|
    {
      var kept := map k | k in sessions && now - sessions[k].startedAt <= FRAGMENT_TTL_SECS :: sessions[k];
      assert kept.Keys <= sessions.Keys;
      assert |sessions.Keys| == |kept.Keys| + |sessions.Keys - kept.Keys|;
      purged := |sessions| - |kept|;
      sessions := kept;
    }

    /** The received counters add up to the number of buffered (session, index) pairs. */
    method TotalBufferedFragments() returns (total: nat)
      requires Valid()
      ensures total == |Buffered(sessions, sessions.Keys)|
    {
      total := 0;
      var left := sessions.Keys;
      ghost var done: set<Key> := {};
      while left != {}
        invariant done !! left && done + left == sessions.Keys
        invariant total == |Buffered(sessions, done)|
        decreases |left|
      {
        var k :| k in left;
        BufferedGrows(sessions, done, k);
        total := total + sessions[k].received;
        left, done := left - {k}, done + {k};
      }
      assert done == sessions.Keys;
    }
  }

  function Buffered(sessions: Sessions, keys: set<Key>): set<(Key, u32)>
    requires keys <= sessions.Keys
  {
    set k, i | k in keys && i in sessions[k].fragments :: (k, i)
  }

  function Tagged(key: Key, indices: set<u32>): set<(Key, u32)> {
    set i | i in indices :: (key, i)
  }

  lemma {:induction false} TaggedSize(key: Key, indices: set<u32>)
    ensures |Tagged(key, indices)| == |indices|
  {
    if indices == {} {
      assert Tagged(key, indices) == {};
    } else {
      var i :| i in indices;
      TaggedSize(key, indices - {i});
      assert Tagged(key, indices) == Tagged(key, indices - {i}) + {(key, i)};
    }
  }

  lemma BufferedSplits(sessions: Sessions, keys: set<Key>, key: Key)
    requires keys <= sessions.Keys && key in sessions && key !in keys
    ensures Buffered(sessions, keys + {key}) == Buffered(sessions, keys) + Tagged(key, sessions[key].fragments.Keys)
    ensures Buffered(sessions, keys) !! Tagged(key, sessions[key].fragments.Keys)
  {
  }

  lemma BufferedGrows(sessions: Sessions, keys: set<Key>, key: Key)
    requires keys <= sessions.Keys && key in sessions && key !in keys
    requires Counted(sessions[key])
    ensures |Buffered(sessions, keys + {key})| == |Buffered(sessions, keys)| + sessions[key].received
  {
    var added := Tagged(key, sessions[key].fragments.Keys);
    TaggedSize(key, sessions[key].fragments.Keys);
    BufferedSplits(sessions, keys, key);
    assert |Buffered(sessions, keys) + added| == |Buffered(sessions, keys)| + |added|;
  }
}
