/** Cutting a large message into fragments of at most 64 KiB. */
module Splitting {
  import opened Base
  import opened Chat
  import opened Decimal
  import opened FragmentCodec
  import opened Utf8

  const FRAGMENT_SIZE: nat := 65536

  /** How many cuts of FRAGMENT_SIZE cover n bytes. */
  function CountOf(n: nat): nat {
    (n + (FRAGMENT_SIZE - 1)) / FRAGMENT_SIZE
  }

  /** The count as the 32-bit number the header carries. */
  function Total(content: Text): u32 {
    CountOf(|content|) % TWO_TO_THE_32
  }

  function End(content: Text, i: nat): nat {
    if (i + 1) * FRAGMENT_SIZE < |content| then (i + 1) * FRAGMENT_SIZE else |content|
  }

  function Slice(content: Text, i: nat): Text
    requires i < CountOf(|content|)
  {
    content[i * FRAGMENT_SIZE..End(content, i)]
  }

  function FragmentOf(from: string, content: Text, msgId: u64, ts: i64, ttl: i64, i: nat): ChatRequest
    requires i < Total(content)
  {
    ChatRequest(from, Lossy(Slice(content, i)), ts, msgId, ttl, 0,
                Some(ServiceCall("fragment", "v1", Some(Encode(FragmentInfo(msgId, Total(content), i))))))
  }

  /** The first n fragments. */
  function Front(from: string, content: Text, msgId: u64, ts: i64, ttl: i64, n: nat): seq<ChatRequest>
    requires n <= Total(content)
  {
    seq(n, i requires 0 <= i < n => FragmentOf(from, content, msgId, ts, ttl, i))
  }

  function Fragments(from: string, content: Text, msgId: u64, ts: i64, ttl: i64): seq<ChatRequest> {
    if |content| <= FRAGMENT_SIZE then [ChatRequest(from, content, ts, msgId, ttl, 0, None)]
    else Front(from, content, msgId, ts, ttl, Total(content))
  }

  lemma HeaderWrittenOut(msgId: u64, index: u32, total: u32)
    ensures Encode(FragmentInfo(msgId, total, index)) == "FRAG:" + Show(msgId) + ":" + Show(index) + ":" + Show(total)
  {
    EncodeIsHeader(FragmentInfo(msgId, total, index));
    var a, b, c := Show(msgId), Show(index), Show(total);
    PrefixSum("FRAG:", a, ":", b + ":" + c, "");
    PrefixSum("FRAG:" + a + ":", b, ":", c, "");
    assert HeaderOf(a, b, c) == "FRAG:" + (a + ":" + (b + ":" + c));
  }

  lemma SliceWrittenOut(content: Text, i: nat)
    requires i < CountOf(|content|)
    ensures i * 65_536 < |content|
    ensures Slice(content, i)
         == content[i * 65_536..if i * 65_536 + 65_536 < |content| then i * 65_536 + 65_536 else |content|]
  {
  }

  lemma FragmentIs(from: string, content: Text, msgId: u64, ts: i64, ttl: i64, i: nat, n: u32)
    requires i < n == Total(content)
    ensures FragmentOf(from, content, msgId, ts, ttl, i)
         == ChatRequest(from, Lossy(Slice(content, i)), ts, msgId, ttl, 0, Some(ServiceCall("fragment", "v1",
              Some("FRAG:" + Show(msgId) + ":" + Show(i) + ":" + Show(n)))))
  {
    HeaderWrittenOut(msgId, i, n);
  }

  lemma FragmentAt(from: string, content: Text, msgId: u64, ts: i64, ttl: i64)
    requires 65_536 < |content|
    ensures var fragments := Fragments(from, content, msgId, ts, ttl);
      && |fragments| == Total(content) == (|content| + 65_535) / 65_536 % 0x1_0000_0000
      && forall i :: 0 <= i < |fragments| ==> fragments[i] == FragmentOf(from, content, msgId, ts, ttl, i)
  {
  }

  /** Fragment i of a message above 64 KiB, written out. */
  lemma FragmentWrittenOut(from: string, content: Text, msgId: u64, ts: i64, ttl: i64, i: nat)
    requires 65_536 < |content|
    ensures |Fragments(from, content, msgId, ts, ttl)| == (|content| + 65_535) / 65_536 % 0x1_0000_0000
    ensures i < |Fragments(from, content, msgId, ts, ttl)| ==>
      && i * 65_536 < |content|
      && var end := if i * 65_536 + 65_536 < |content| then i * 65_536 + 65_536 else |content|;
         var n: nat := |Fragments(from, content, msgId, ts, ttl)|;
         Fragments(from, content, msgId, ts, ttl)[i]
           == ChatRequest(from, Lossy(content[i * 65_536..end]), ts, msgId, ttl, 0, Some(ServiceCall("fragment", "v1",
                Some("FRAG:" + Show(msgId) + ":" + Show(i) + ":" + Show(n)))))
  {
    FragmentAt(from, content, msgId, ts, ttl);
    if i < Total(content) {
      FragmentsCoverIffCountFits(content);
      SliceWrittenOut(content, i);
      FragmentIs(from, content, msgId, ts, ttl, i, Total(content));
    }
  }

  /** One request as it is up to 64 KiB, else one per slice, each with its header. */
  method SplitLargeMessage(from: string, content: Text, msgId: u64, ts: i64, ttl: i64)
    returns (fragments: seq<ChatRequest>)
    ensures fragments == Fragments(from, content, msgId, ts, ttl)
    ensures |content| <= 65_536 ==> fragments == [ChatRequest(from, content, ts, msgId, ttl, 0, None)]
  {
    if |content| <= FRAGMENT_SIZE {
      return [ChatRequest(from, content, ts, msgId, ttl, 0, None)];
    }
    var total := CountOf(|content|) % TWO_TO_THE_32;
    fragments := [];
    for i := 0 to total
      invariant fragments == Front(from, content, msgId, ts, ttl, i)
    {
      var start := i * FRAGMENT_SIZE;
      var end := if start + FRAGMENT_SIZE < |content| then start + FRAGMENT_SIZE else |content|;
      var chunk := Lossy(content[start..end]);
      var info := FragmentInfo(msgId, total, i);
      var fragment := ChatRequest(from, chunk, ts, msgId, ttl, 0,
        Some(ServiceCall("fragment", "v1", Some(Encode(info)))));
      assert fragment == FragmentOf(from, content, msgId, ts, ttl, i);
      fragments := fragments + [fragment];
    }
  }

  // ── The slices partition the message ────────────────────────────────

  function Slices(content: Text, n: nat): seq<Text>
    requires n <= CountOf(|content|)
  {
    seq(n, i requires 0 <= i < n => Slice(content, i))
  }

  lemma {:induction false} SlicesConcatenate(content: Text, n: nat)
    requires n <= CountOf(|content|)
    ensures Concat(Slices(content, n))
         == content[..if n * FRAGMENT_SIZE < |content| then n * FRAGMENT_SIZE else |content|]
  {
    if n > 0 {
      SlicesConcatenate(content, n - 1);
      assert Slices(content, n) == Slices(content, n - 1) + [Slice(content, n - 1)];
      ConcatSnoc(Slices(content, n - 1), Slice(content, n - 1));
    }
  }

  /** The cut: non-empty slices of at most 64 KiB, all but the last full, as few as
      possible, whose concatenation is the message. */
  lemma SlicesPartition(content: Text)
    ensures var n := CountOf(|content|);
      && Concat(Slices(content, n)) == content
      && (forall i :: 0 <= i < n ==> 0 < |Slice(content, i)| <= 65_536)
      && (forall i :: 0 <= i < n - 1 ==> |Slice(content, i)| == 65_536)
      && (if content == [] then n == 0 else (n - 1) * 65_536 < |content| <= n * 65_536)
  {
    SlicesConcatenate(content, CountOf(|content|));
  }

  /** The fragments carry every slice exactly when the count fits the header. */
  lemma FragmentsCoverIffCountFits(content: Text)
    ensures Total(content) == CountOf(|content|) <==> CountOf(|content|) < TWO_TO_THE_32
    ensures Total(content) <= CountOf(|content|)
    ensures Concat(Slices(content, Total(content))) == content <==> CountOf(|content|) < TWO_TO_THE_32
  {
    SlicesConcatenate(content, Total(content));
    SlicesPartition(content);
  }

  // ── Lossy decoding at the cuts ──────────────────────────────────────

  /** Every cut falls on a character boundary. */
  predicate CutsOnBoundaries(content: Text) {
    forall i :: 0 < i < CountOf(|content|) ==> Boundary(content, CutAt(content, i))
  }

  function CutAt(content: Text, i: nat): (k: nat)
    requires i < CountOf(|content|)
    ensures k == i * FRAGMENT_SIZE < |content|
  {
    i * FRAGMENT_SIZE
  }

  /** The fragment texts, in order. */
  function Chunks(content: Text, n: nat): seq<Text>
    requires n <= CountOf(|content|)
  {
    seq(n, i requires 0 <= i < n => Lossy(Slice(content, i)))
  }

  lemma BoundaryInTail(content: Text, start: nat, end: nat, tail: Text)
    requires start <= end <= |content| && Boundary(content, end) && tail == content[start..]
    ensures Boundary(tail, end - start)
  {
  }

  lemma BackIsValid(s: Text, k: nat, back: Text)
    requires Valid(s) && k <= |s| && Boundary(s, k) && back == s[k..]
    ensures Valid(back)
  {
    CutAtBoundary(s, k);
  }

  lemma FrontIsValid(s: Text, k: nat, front: Text)
    requires Valid(s) && k <= |s| && Boundary(s, k) && front == s[..k]
    ensures Valid(front)
  {
    CutAtBoundary(s, k);
  }

  lemma SliceOfTail(content: Text, start: nat, end: nat)
    requires start <= end <= |content|
    ensures content[start..end] == content[start..][..end - start]
  {
  }

  /** A piece of valid text between two boundaries is valid. */
  lemma PieceIsValid(content: Text, start: nat, end: nat)
    requires Valid(content) && start <= end <= |content|
    requires Boundary(content, start) && Boundary(content, end)
    ensures Valid(content[start..end])
  {
    SliceOfTail(content, start, end);
    TailPieceIsValid(content, start, end, content[start..], content[start..end]);
  }

  lemma TailPieceIsValid(content: Text, start: nat, end: nat, tail: Text, piece: Text)
    requires Valid(content) && start <= end <= |content|
    requires Boundary(content, start) && Boundary(content, end)
    requires tail == content[start..] && piece == tail[..end - start]
    ensures Valid(piece)
  {
    BackIsValid(content, start, tail);
    BoundaryInTail(content, start, end, tail);
    FrontIsValid(tail, end - start, piece);
  }

  lemma SliceStartsAtBoundary(content: Text, i: nat)
    requires i < CountOf(|content|) && Valid(Slice(content, i))
    ensures Boundary(content, CutAt(content, i))
  {
    var start, end := CutAt(content, i), End(content, i);
    assert content[start..][..end - start] == Slice(content, i);
    ValidStartsAtBoundary(content, start, Slice(content, i));
  }

  lemma {:induction false} ChunksGrow(content: Text, n: nat)
    requires n <= CountOf(|content|)
    ensures |Concat(Slices(content, n))| <= |Concat(Chunks(content, n))|
  {
    if n > 0 {
      ChunksGrow(content, n - 1);
      ChunksSnoc(content, n);
      LossyGrows(Slice(content, n - 1));
    }
  }

  lemma ConcatSnoc(parts: seq<Text>, last: Text)
    ensures Concat(parts + [last]) == Concat(parts) + last
  {
    ConcatAppend(parts, [last]);
    assert Concat([last]) == last;
  }

  lemma ChunksSnoc(content: Text, n: nat)
    requires 0 < n <= CountOf(|content|)
    ensures Concat(Slices(content, n)) == Concat(Slices(content, n - 1)) + Slice(content, n - 1)
    ensures Concat(Chunks(content, n)) == Concat(Chunks(content, n - 1)) + Lossy(Slice(content, n - 1))
  {
    assert Slices(content, n) == Slices(content, n - 1) + [Slice(content, n - 1)];
    assert Chunks(content, n) == Chunks(content, n - 1) + [Lossy(Slice(content, n - 1))];
    ConcatSnoc(Slices(content, n - 1), Slice(content, n - 1));
    ConcatSnoc(Chunks(content, n - 1), Lossy(Slice(content, n - 1)));
  }

  lemma SplitEqually(a: Text, b: Text, c: Text, d: Text)
    requires a + b == c + d && |c| <= |a| && |d| <= |b|
    ensures a == c && b == d
  {
    assert a == (a + b)[..|a|] && c == (c + d)[..|c|];
    assert b == (a + b)[|a|..] && d == (c + d)[|c|..];
  }

  /** Chunks never shrink, so equal concatenations are equal chunk by chunk. */
  lemma {:induction false} EqualChunkwise(content: Text, n: nat, i: nat)
    requires i < n <= CountOf(|content|)
    requires Concat(Chunks(content, n)) == Concat(Slices(content, n))
    ensures Lossy(Slice(content, i)) == Slice(content, i)
  {
    ChunksSnoc(content, n);
    ChunksGrow(content, n - 1);
    LossyGrows(Slice(content, n - 1));
    var a, b := Concat(Chunks(content, n - 1)), Lossy(Slice(content, n - 1));
    var c, d := Concat(Slices(content, n - 1)), Slice(content, n - 1);
    SplitEqually(a, b, c, d);
    if i < n - 1 {
      EqualChunkwise(content, n - 1, i);
    }
  }

  /** Fragment texts put together give the message back exactly when no cut falls
      inside a character. */
  lemma ChunksRestoreIffCutsOnBoundaries(content: Text)
    requires Valid(content)
    ensures Concat(Chunks(content, CountOf(|content|))) == content <==> CutsOnBoundaries(content)
  {
    var n := CountOf(|content|);
    SlicesPartition(content);
    if CutsOnBoundaries(content) {
      forall i | 0 <= i < n
        ensures Lossy(Slice(content, i)) == Slice(content, i)
      {
        assert Boundary(content, CutAt(content, i));
        assert i + 1 < n ==> Boundary(content, CutAt(content, i + 1));
        PieceIsValid(content, CutAt(content, i), End(content, i));
        LossyOfValid(Slice(content, i));
      }
      assert Chunks(content, n) == Slices(content, n);
    }
    if Concat(Chunks(content, n)) == content {
      forall i | 0 < i < n
        ensures Boundary(content, CutAt(content, i))
      {
        EqualChunkwise(content, n, i);
        LossyIsIdentityIffValid(Slice(content, i));
        SliceStartsAtBoundary(content, i);
      }
    }
  }

  function Letters(n: nat): Text {
    seq(n, _ => 0x61)
  }

  lemma LetterThenValid(rest: Text, s: Text)
    requires Valid(rest) && s == [0x61] + rest
    ensures Valid(s)
  {
    assert s[0] == 0x61 && s[1..] == rest;
  }

  lemma {:induction false} LettersThenValid(n: nat, tail: Text)
    requires Valid(tail)
    ensures Valid(Letters(n) + tail)
  {
    if n == 0 {
      assert Letters(0) + tail == tail;
    } else {
      LettersThenValid(n - 1, tail);
      assert Letters(n) + tail == [0x61] + (Letters(n - 1) + tail);
      LetterThenValid(Letters(n - 1) + tail, Letters(n) + tail);
    }
  }

  /** A message the round trip damages: 65535 ASCII letters and one accented letter,
      whose two bytes end up in different fragments. */
  lemma SomeMessageIsDamaged()
    ensures var content := Letters(FRAGMENT_SIZE - 1) + [0xC3, 0xA9];
      Valid(content) && Concat(Chunks(content, CountOf(|content|))) != content
  {
    var content := Letters(FRAGMENT_SIZE - 1) + [0xC3, 0xA9];
    var letter: Text := [0xC3, 0xA9];
    assert Valid(letter) by {
      assert Piece(letter) == 2 && letter[2..] == [];
    }
    LettersThenValid(FRAGMENT_SIZE - 1, letter);
    assert !Boundary(content, CutAt(content, 1));
    ChunksRestoreIffCutsOnBoundaries(content);
  }
}
