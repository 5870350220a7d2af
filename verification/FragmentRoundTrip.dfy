/** Reassembly undoes splitting, in any arrival order and between other traffic. */
module FragmentRoundTrip {
  import opened Base
  import opened Chat
  import opened FragmentCodec
  import opened Reassembly
  import Splitting
  import Utf8

  datatype Arrival = Arrival(sender: string, msg: ChatRequest)

  function Run(start: Sessions, trace: seq<Arrival>): Sessions {
    if trace == [] then start
    else
      var last := trace[|trace| - 1];
      After(Run(start, trace[..|trace| - 1]), last.sender, last.msg)
  }

  /** An arrival that goes into session key. */
  predicate GoesTo(a: Arrival, key: Key) {
    InfoOf(a.msg).Some? && key == (a.sender, InfoOf(a.msg).value.msgId)
  }

  function IndexOf(a: Arrival): u32 {
    if InfoOf(a.msg).Some? then InfoOf(a.msg).value.index else 0
  }

  /** The fragment indices that have arrived for session key. */
  function Arrived(trace: seq<Arrival>, key: Key): set<u32> {
    if trace == [] then {}
    else
      var last := trace[|trace| - 1];
      Arrived(trace[..|trace| - 1], key) + if GoesTo(last, key) then {IndexOf(last)} else {}
  }

  // ── Arbitrary fragments ─────────────────────────────────────────────

  function TotalOf(a: Arrival): u32 {
    if InfoOf(a.msg).Some? then InfoOf(a.msg).value.total else 0
  }

  /** chunk is the text of the latest arrival with this index. */
  ghost predicate Latest(batch: seq<Arrival>, index: u32, chunk: Text) {
    exists k :: 0 <= k < |batch| && IndexOf(batch[k]) == index && batch[k].msg.content == chunk
      && forall j :: k < j < |batch| ==> IndexOf(batch[j]) != index
  }

  ghost predicate HoldsLatest(fragments: map<u32, Text>, batch: seq<Arrival>) {
    && (forall a :: a in batch ==> IndexOf(a) in fragments)
    && (forall i :: i in fragments ==> Latest(batch, i, fragments[i]))
  }

  ghost predicate HasIndex(batch: seq<Arrival>, index: u32) {
    exists a :: a in batch && IndexOf(a) == index
  }

  /** Every index below the total that the first arrival announced has arrived. */
  ghost predicate AllThere(batch: seq<Arrival>)
    requires batch != []
  {
    forall i: u32 :: i < TotalOf(batch[0]) ==> HasIndex(batch, i)
  }

  /** An arrival joins those before it unless it is more than 60 seconds younger than the
      first of them; then it starts anew. */
  function Joined(batch: seq<Arrival>, a: Arrival): (r: seq<Arrival>)
    ensures r != []
  {
    if batch != [] && a.msg.ts - batch[0].msg.ts <= 60 then batch + [a] else [a]
  }

  /** The arrivals for key that have not yet come out as a message or been given up: told
      from the trace alone. */
  ghost function Batch(trace: seq<Arrival>, key: Key): seq<Arrival> {
    if trace == [] then []
    else
      var before, last := Batch(trace[..|trace| - 1], key), trace[|trace| - 1];
      if !GoesTo(last, key) then before
      else if AllThere(Joined(before, last)) then []
      else Joined(before, last)
  }

  /** The session has the latest chunk of every index that arrived, the total that the
      first arrival announced, and the time of that arrival. */
  ghost predicate Reflects(s: Session, batch: seq<Arrival>) {
    batch != [] && s.total == TotalOf(batch[0]) && s.startedAt == batch[0].msg.ts && HoldsLatest(s.fragments, batch)
  }

  lemma LatestSnoc(fragments: map<u32, Text>, batch: seq<Arrival>, a: Arrival)
    requires HoldsLatest(fragments, batch)
    ensures HoldsLatest(fragments[IndexOf(a) := a.msg.content], batch + [a])
  {
    var fragments', batch' := fragments[IndexOf(a) := a.msg.content], batch + [a];
    forall i | i in fragments'
      ensures Latest(batch', i, fragments'[i])
    {
      if i == IndexOf(a) {
        assert batch'[|batch|] == a;
      } else {
        var k :| 0 <= k < |batch| && IndexOf(batch[k]) == i && batch[k].msg.content == fragments[i]
          && forall j :: k < j < |batch| ==> IndexOf(batch[j]) != i;
        assert batch'[k] == batch[k];
      }
    }
  }

  /** One more fragment, into the stored session or into a new one. */
  lemma FilledReflects(sessions: Sessions, batch: seq<Arrival>, a: Arrival, key: Key)
    requires GoesTo(a, key)
    requires key in sessions <==> batch != []
    requires key in sessions ==> Reflects(sessions[key], batch)
    ensures Reflects(Filled(sessions, a.sender, a.msg), Joined(batch, a))
  {
    var info := InfoOf(a.msg).value;
    var session := Opened(sessions, key, info.total, a.msg.ts);
    if batch != [] && a.msg.ts - batch[0].msg.ts <= 60 {
      LatestSnoc(session.fragments, batch, a);
      assert (batch + [a])[0] == batch[0];
    } else {
      LatestSnoc(session.fragments, [], a);
      assert [] + [a] == [a];
    }
  }

  /** Whatever arrives, with disagreeing totals, indices out of range, any times: an open
      session holds exactly the indices of its batch, each with the chunk that arrived
      last, and goes by the total and the time of its first fragment. */
  lemma {:induction false} SessionHoldsLatest(start: Sessions, trace: seq<Arrival>, key: Key)
    requires key !in start
    ensures key in Run(start, trace) <==> Batch(trace, key) != []
    ensures key in Run(start, trace) ==> Reflects(Run(start, trace)[key], Batch(trace, key))
  {
    if trace != [] {
      var before, last := trace[..|trace| - 1], trace[|trace| - 1];
      SessionHoldsLatest(start, before, key);
      var sessions := Run(start, before);
      if GoesTo(last, key) {
        FilledReflects(sessions, Batch(before, key), last, key);
        ReflectedIsAssembly(Filled(sessions, last.sender, last.msg), Joined(Batch(before, key), last));
      } else {
        OthersUntouched(sessions, last.sender, last.msg, key);
      }
    }
  }

  /** text is the concatenation, in index order, of the latest chunk for each index. */
  ghost predicate IsAssembly(text: Text, batch: seq<Arrival>, total: u32) {
    exists chunks: seq<Text> :: |chunks| == total
      && (forall i: u32 :: i < total ==> Latest(batch, i, chunks[i]))
      && text == Concat(chunks)
  }

  lemma ReflectedIsAssembly(s: Session, batch: seq<Arrival>)
    requires Reflects(s, batch)
    ensures Complete(s) <==> AllThere(batch)
    ensures Complete(s) ==> IsAssembly(Assembled(s), batch, s.total)
  {
    forall i: u32 | i in s.fragments
      ensures HasIndex(batch, i)
    {
      var k :| 0 <= k < |batch| && IndexOf(batch[k]) == i && batch[k].msg.content == s.fragments[i]
        && forall j :: k < j < |batch| ==> IndexOf(batch[j]) != i;
      assert batch[k] in batch;
    }
    forall i: u32 | HasIndex(batch, i)
      ensures i in s.fragments
    {
      var a :| a in batch && IndexOf(a) == i;
    }
    if Complete(s) {
      var chunks := Chunks(s, s.total);
      assert forall i: u32 :: i < s.total ==> chunks[i] == s.fragments[i];
    }
  }

  /** Whatever arrives: a fragment completes its session exactly if every index below the
      total announced first has arrived, none of them more than 60 seconds younger than
      that first one, and what comes out is the latest chunk of each, in index order. */
  lemma ResultIsLatest(start: Sessions, trace: seq<Arrival>, a: Arrival, key: Key)
    requires key !in start && GoesTo(a, key)
    ensures var batch, result := Joined(Batch(trace, key), a), Result(Run(start, trace), a.sender, a.msg);
      && (result.Some? <==> AllThere(batch))
      && (result.Some? ==> IsAssembly(result.value, batch, TotalOf(batch[0])))
  {
    SessionHoldsLatest(start, trace, key);
    FilledReflects(Run(start, trace), Batch(trace, key), a, key);
    ReflectedIsAssembly(Filled(Run(start, trace), a.sender, a.msg), Joined(Batch(trace, key), a));
  }

  /** A message without a readable fragment header comes out as it is. */
  lemma UnfragmentedPassesThrough(sessions: Sessions, sender: string, msg: ChatRequest)
    requires msg.service.None? || msg.service.value.fragmentInfo.None?
          || Decode(msg.service.value.fragmentInfo.value).None?
    ensures Result(sessions, sender, msg) == Some(msg.content) && After(sessions, sender, msg) == sessions
  {
  }

  // ── Fragments of one message ────────────────────────────────────────

  /** One split message on its way: what the sender was given. */
  datatype Original = Original(from: string, content: Text, msgId: u64, ts: i64, ttl: i64) {
    /** Large enough to be cut, not too large for the 32-bit total. */
    predicate IsCut() {
      Splitting.FRAGMENT_SIZE < |content| && Splitting.CountOf(|content|) < TWO_TO_THE_32
    }

    function Fragments(): seq<ChatRequest> {
      Splitting.Fragments(from, content, msgId, ts, ttl)
    }

    function Total(): u32 {
      Splitting.Total(content)
    }

    function Chunk(i: u32): Text
      requires IsCut() && i < Total()
    {
      Utf8.Lossy(Splitting.Slice(content, i))
    }
  }

  /** Session key receives fragments of the original and nothing else; all other
      arrivals are arbitrary. */
  ghost predicate Carries(trace: seq<Arrival>, key: Key, o: Original) {
    forall i :: 0 <= i < |trace| && GoesTo(trace[i], key) ==> trace[i].msg in o.Fragments()
  }

  lemma FragmentInfoIsRead(o: Original, msg: ChatRequest)
    requires o.IsCut() && msg in o.Fragments()
    ensures InfoOf(msg).Some?
    ensures var info := InfoOf(msg).value;
      && info.msgId == o.msgId && info.total == o.Total() && info.index < o.Total()
      && msg.content == o.Chunk(info.index) && msg.ts == o.ts
  {
    Splitting.FragmentsCoverIffCountFits(o.content);
    var i: nat :| i < |o.Fragments()| && o.Fragments()[i] == msg;
    DecodeEncode(FragmentInfo(o.msgId, o.Total(), i));
  }

  /** The session once exactly the given indices have arrived. */
  ghost predicate Buffers(sessions: Sessions, key: Key, o: Original, arrived: set<u32>)
    requires o.IsCut()
  {
    if arrived == {} then key !in sessions
    else
      && key in sessions
      && sessions[key].fragments.Keys == arrived
      && sessions[key].total == o.Total()
      && sessions[key].startedAt == o.ts
      && forall i :: i in arrived ==> i < o.Total() && sessions[key].fragments[i] == o.Chunk(i)
  }

  lemma FillBuffers(sessions: Sessions, key: Key, o: Original, arrived: set<u32>, a: Arrival)
    requires o.IsCut() && Buffers(sessions, key, o, arrived)
    requires GoesTo(a, key) && a.msg in o.Fragments()
    ensures var s := Filled(sessions, a.sender, a.msg);
      && s.fragments.Keys == arrived + {IndexOf(a)}
      && s.total == o.Total() && s.startedAt == o.ts
      && forall i :: i in s.fragments ==> i < o.Total() && s.fragments[i] == o.Chunk(i)
  {
    FragmentInfoIsRead(o, a.msg);
  }

  lemma SeqOfChunks(o: Original, s: Session)
    requires o.IsCut() && s.total == o.Total() && Complete(s)
    requires forall i :: i in s.fragments ==> i < o.Total() && s.fragments[i] == o.Chunk(i)
    ensures Assembled(s) == Concat(Splitting.Chunks(o.content, Splitting.CountOf(|o.content|)))
  {
    Splitting.FragmentsCoverIffCountFits(o.content);
    assert Reassembly.Chunks(s, s.total) == Splitting.Chunks(o.content, Splitting.CountOf(|o.content|));
  }

  lemma CompleteIffAllArrived(s: Session, total: u32)
    requires s.total == total && forall i :: i in s.fragments ==> i < total
    ensures Complete(s) <==> s.fragments.Keys == Below(total)
  {
  }

  /** One more fragment: nothing until it is the last missing one. */
  lemma StepBuffers(sessions: Sessions, key: Key, o: Original, arrived: set<u32>, a: Arrival)
    requires o.IsCut() && Buffers(sessions, key, o, arrived)
    requires GoesTo(a, key) && a.msg in o.Fragments()
    ensures arrived + {IndexOf(a)} != Below(o.Total()) ==>
      && Result(sessions, a.sender, a.msg) == None
      && Buffers(After(sessions, a.sender, a.msg), key, o, arrived + {IndexOf(a)})
    ensures arrived + {IndexOf(a)} == Below(o.Total()) ==>
      && Result(sessions, a.sender, a.msg) == Some(Concat(Splitting.Chunks(o.content, Splitting.CountOf(|o.content|))))
      && key !in After(sessions, a.sender, a.msg)
  {
    FillBuffers(sessions, key, o, arrived, a);
    var s := Filled(sessions, a.sender, a.msg);
    CompleteIffAllArrived(s, o.Total());
    if Complete(s) {
      SeqOfChunks(o, s);
    }
  }

  lemma {:induction false} ArrivedGrows(trace: seq<Arrival>, key: Key, o: Original)
    requires o.IsCut() && Carries(trace, key, o)
    ensures Arrived(trace, key) <= Below(o.Total())
  {
    if trace != [] {
      var before, last := trace[..|trace| - 1], trace[|trace| - 1];
      ArrivedGrows(before, key, o);
      if GoesTo(last, key) {
        FragmentInfoIsRead(o, last.msg);
      }
    }
  }

  /** As long as some index is missing, the session holds exactly what arrived. */
  lemma {:induction false} IncompleteIsBuffered(start: Sessions, trace: seq<Arrival>, key: Key, o: Original)
    requires o.IsCut() && Carries(trace, key, o) && key !in start
    requires Arrived(trace, key) != Below(o.Total())
    ensures Buffers(Run(start, trace), key, o, Arrived(trace, key))
  {
    if trace != [] {
      var before, last := trace[..|trace| - 1], trace[|trace| - 1];
      ArrivedGrows(before, key, o);
      ArrivedGrows(trace, key, o);
      IncompleteIsBuffered(start, before, key, o);
      var sessions := Run(start, before);
      if GoesTo(last, key) {
        StepBuffers(sessions, key, o, Arrived(before, key), last);
      } else {
        OthersUntouched(sessions, last.sender, last.msg, key);
      }
    }
  }

  /** Feed the fragments of one large message in any order, with any repeats, between
      arbitrary other traffic: nothing comes out until every index has arrived, then
      the whole message comes out, its session is gone and no other session is
      touched.  What comes out is the original exactly if no 64 KiB cut falls inside a
      character, since each piece is decoded on its own. */
  lemma ReassemblyUndoesSplitting(start: Sessions, trace: seq<Arrival>, a: Arrival, key: Key, o: Original)
    requires o.IsCut() && Utf8.Valid(o.content)
    requires key !in start && Carries(trace + [a], key, o) && GoesTo(a, key)
    requires Arrived(trace, key) != Below(o.Total())
    ensures var sessions := Run(start, trace);
      var result, after := Result(sessions, a.sender, a.msg), After(sessions, a.sender, a.msg);
      && (result.None? <==> Arrived(trace, key) + {IndexOf(a)} != Below(o.Total()))
      && (result.Some? ==>
            && key !in after
            && (result.value == o.content <==> Splitting.CutsOnBoundaries(o.content)))
      && forall other :: other != key ==>
            && (other in after <==> other in sessions)
            && (other in sessions ==> after[other] == sessions[other])
  {
    assert Carries(trace, key, o) by {
      assert forall i :: 0 <= i < |trace| ==> trace[i] == (trace + [a])[i];
    }
    assert (trace + [a])[|trace|] == a;
    IncompleteIsBuffered(start, trace, key, o);
    StepBuffers(Run(start, trace), key, o, Arrived(trace, key), a);
    Splitting.ChunksRestoreIffCutsOnBoundaries(o.content);
    forall other | other != key
      ensures var sessions := Run(start, trace);
        var after := After(sessions, a.sender, a.msg);
        (other in after <==> other in sessions) && (other in sessions ==> after[other] == sessions[other])
    {
      OthersUntouched(Run(start, trace), a.sender, a.msg, other);
    }
  }

  /** A message that was not cut passes straight through. */
  lemma SmallMessagePassesThrough(sessions: Sessions, sender: string, o: Original)
    requires |o.content| <= Splitting.FRAGMENT_SIZE
    ensures |o.Fragments()| == 1
    ensures Result(sessions, sender, o.Fragments()[0]) == Some(o.content)
    ensures After(sessions, sender, o.Fragments()[0]) == sessions
  {
  }
}
