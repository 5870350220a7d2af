/** Bounded replay filter: a hash set plus a FIFO of the same ids.  The set
    answers membership, the FIFO decides which id is forgotten. */
module Dedup {
  import opened Base

  const MAX_TRACKED := 10_000

  /** The last MAX_TRACKED elements of the history of accepted ids. */
  function Window(accepted: seq<u64>): seq<u64> {
    if |accepted| <= MAX_TRACKED then accepted else accepted[|accepted| - MAX_TRACKED..]
  }

  /** The history after one more question about id. */
  function Asked(accepted: seq<u64>, id: u64): seq<u64> {
    if id in Window(accepted) then accepted else accepted + [id]
  }

  /** The history after a whole series of questions. */
  function Accepted(ids: seq<u64>): seq<u64> {
    if ids == [] then [] else Asked(Accepted(ids[..|ids| - 1]), ids[|ids| - 1])
  }

  ghost predicate NoDuplicates(s: seq<u64>) {
    forall i, j :: 0 <= i < j < |s| ==> s[i] != s[j]
  }

  /** Two acceptances of one id have at least MAX_TRACKED others between them. */
  ghost predicate Spaced(accepted: seq<u64>) {
    forall i, j :: 0 <= i < j < |accepted| && accepted[i] == accepted[j] ==> MAX_TRACKED <= j - i - 1
  }

  lemma RecentIsInWindow(accepted: seq<u64>, i: nat)
    requires i < |accepted| <= i + MAX_TRACKED
    ensures accepted[i] in Window(accepted)
  {
    var window := Window(accepted);
    assert window[i - (|accepted| - |window|)] == accepted[i];
  }

  lemma AskedKeepsSpacing(accepted: seq<u64>, id: u64)
    requires Spaced(accepted)
    ensures Spaced(Asked(accepted, id))
  {
    var after := Asked(accepted, id);
    if after != accepted {
      forall i | 0 <= i < |accepted| && accepted[i] == id
        ensures MAX_TRACKED <= |accepted| - i - 1
      {
        if |accepted| - i <= MAX_TRACKED {
          RecentIsInWindow(accepted, i);
        }
      }
    }
  }

  /** i is where id was accepted last. */
  ghost predicate LastAt(accepted: seq<u64>, id: u64, i: nat) {
    i < |accepted| && accepted[i] == id && forall j :: i < j < |accepted| ==> accepted[j] != id
  }

  lemma {:induction false} SomeLast(accepted: seq<u64>, id: u64) returns (i: nat)
    requires id in accepted
    ensures LastAt(accepted, id, i)
  {
    var last := |accepted| - 1;
    if accepted[last] == id {
      i := last;
    } else {
      i := SomeLast(accepted[..last], id);
    }
  }

  /** An id is recognised exactly if fewer than 10,000 others were accepted after it; then,
      and only then, the question leaves the history as it is. */
  lemma KnownIff(accepted: seq<u64>, id: u64, i: nat)
    requires LastAt(accepted, id, i)
    ensures Asked(accepted, id) == accepted <==> |accepted| - 1 - i < 10_000
    ensures id in Window(accepted) <==> |accepted| - 1 - i < 10_000
  {
    if |accepted| - i <= MAX_TRACKED {
      RecentIsInWindow(accepted, i);
    } else {
      var window := Window(accepted);
      assert forall k :: 0 <= k < |window| ==> window[k] == accepted[k + (|accepted| - |window|)];
    }
  }

  /** An id that was never accepted is accepted. */
  lemma NewIsAccepted(accepted: seq<u64>, id: u64)
    requires id !in accepted
    ensures Asked(accepted, id) == accepted + [id]
  {
  }

  lemma AnswerAt(accepted: seq<u64>, id: u64)
    ensures id in Window(accepted) <==> exists i :: LastAt(accepted, id, i) && |accepted| - 1 - i < 10_000
  {
    if id in accepted {
      var i := SomeLast(accepted, id);
      KnownIff(accepted, id, i);
      assert forall k :: LastAt(accepted, id, k) ==> k == i;
    }
  }

  /** Whatever has been asked: the answer to one more question. */
  lemma AnswerIff(ids: seq<u64>, id: u64)
    ensures var accepted := Accepted(ids);
      Accepted(ids + [id]) == accepted <==> exists i :: LastAt(accepted, id, i) && |accepted| - 1 - i < 10_000
    ensures id !in Accepted(ids) ==> Accepted(ids + [id]) == Accepted(ids) + [id]
  {
    assert (ids + [id])[..|ids|] == ids;
    AnswerAt(Accepted(ids), id);
  }

  /** Whatever is asked, in whatever order: an id is accepted again only after
      at least 10,000 other acceptances. */
  lemma {:induction false} ReacceptanceIsSpaced(ids: seq<u64>)
    ensures Spaced(Accepted(ids))
    ensures var a := Accepted(ids); forall i, j :: 0 <= i < j < |a| && a[i] == a[j] ==> 10_000 <= j - i - 1
  {
    if ids != [] {
      ReacceptanceIsSpaced(ids[..|ids| - 1]);
      AskedKeepsSpacing(Accepted(ids[..|ids| - 1]), ids[|ids| - 1]);
    }
  }

  /** A spaced history has no repetition inside any window. */
  lemma WindowHasNoDuplicates(accepted: seq<u64>)
    requires Spaced(accepted)
    ensures NoDuplicates(Window(accepted))
  {
    var window := Window(accepted);
    var skip := |accepted| - |window|;
    forall i, j | 0 <= i < j < |window|
      ensures window[i] != window[j]
    {
      assert window[i] == accepted[skip + i] && window[j] == accepted[skip + j];
    }
  }

  /** A set and a duplicate-free sequence with the same elements have the same size. */
  lemma {:induction false} SameSize(s: seq<u64>, elements: set<u64>)
    requires NoDuplicates(s)
    requires forall x :: x in elements <==> x in s
    ensures |elements| == |s|
  {
    if s == [] {
      assert elements == {};
    } else {
      var rest := elements - {s[0]};
      forall x
        ensures x in rest <==> x in s[1..]
      {
        assert x in s <==> x == s[0] || x in s[1..];
      }
      SameSize(s[1..], rest);
    }
  }

  class DedupFilter {
    var seen: set<u64>
    var order: seq<u64>
    ghost var accepted: seq<u64>

    ghost predicate Valid()
      reads this
    {
      && Spaced(accepted)
      && order == Window(accepted)
      && forall x :: x in seen <==> x in order
    }

    constructor ()
      ensures Valid() && accepted == []
    {
      seen, order, accepted := {}, [], [];
    }

    /** True iff id is among the last MAX_TRACKED accepted ids. */
    method IsDup(id: u64) returns (dup: bool)
      requires Valid()
      modifies this
      ensures Valid()
      ensures dup <==> id in Window(old(accepted))
      ensures accepted == Asked(old(accepted), id)
      ensures dup <==> exists i :: LastAt(old(accepted), id, i) && |old(accepted)| - 1 - i < 10_000
      ensures accepted == if dup then old(accepted) else old(accepted) + [id]
    {
      AnswerAt(accepted, id);
      if id in seen {
        return true;
      }
      WindowHasNoDuplicates(accepted);
      SameSize(order, seen);
      AskedKeepsSpacing(accepted, id);
      if |seen| >= MAX_TRACKED {
        if order != [] {
          var oldest := order[0];
          assert forall x :: x in order <==> x == oldest || x in order[1..];
          order := order[1..];
          seen := seen - {oldest};
        }
      }
      seen := seen + {id};
      order := order + [id];
      accepted := accepted + [id];
      return false;
    }
  }
}
