/** Which posts verification cannot tell apart, and what it leaves unchecked. */
module Readings {
  import opened Base
  import opened Decimal
  import opened Timeline

  function TextOf(k: Core): string {
    HashInput(k.author, k.content, k.ts, k.parents)
  }

  function TailOf(parents: seq<string>): string {
    if parents == [] then "" else "|" + Terminated(parents)
  }

  // ── One text, two readings ──────────────────────────────────────────

  /** Another post, with an author as verification accepts it, has the same hashed text. */
  ghost predicate HasTwin(k: Core) {
    exists other: Core :: other != k && Plain(other.author) && TextOf(other) == TextOf(k)
  }

  /** After c0 the content has a bar and then the number t, up to its end or to a bar. */
  predicate TimeAt(content: string, c0: string, t: i64) {
    content == c0 + "|" + ShowInt(t) || c0 + "|" + ShowInt(t) + "|" <= content
  }

  ghost predicate HoldsTime(content: string) {
    exists c0, t: i64 :: TimeAt(content, c0, t)
  }

  /** In a parent, at its start or after a bar, the number t and then a bar; c0 is what
      stands before, with a bar put in front of the parent. */
  predicate ParentTimeAt(parent: string, c0: string, t: i64) {
    c0 + "|" + ShowInt(t) + "|" <= "|" + parent
  }

  ghost predicate ParentHoldsTime(parent: string) {
    exists c0, t: i64 :: ParentTimeAt(parent, c0, t)
  }

  /** There is another way to read the hashed text: by the parents' commas or by a number
      between bars other than the time of the post. */
  ghost predicate ReadsOtherwise(content: string, parents: seq<string>) {
    |parents| >= 2
    || (|parents| == 1 && (HoldsTime(content) || ',' in parents[0] || ParentHoldsTime(parents[0])))
  }

  lemma TextIsAuthorThenBody(k: Core)
    ensures TextOf(k) == k.author + "|" + Body(k.content, k.ts, TailOf(k.parents))
  {
    HashInputIsAuthorThenBody(k.author, k.content, k.ts, k.parents);
  }

  lemma SameTextSameBody(k: Core, k': Core)
    requires Plain(k.author) && Plain(k'.author) && TextOf(k) == TextOf(k')
    ensures k.author == k'.author
    ensures Body(k.content, k.ts, TailOf(k.parents)) == Body(k'.content, k'.ts, TailOf(k'.parents))
    ensures k.parents == [] <==> k'.parents == []
  {
    TextIsAuthorThenBody(k);
    TextIsAuthorThenBody(k');
    FirstBar(k.author, Body(k.content, k.ts, TailOf(k.parents)), k'.author,
      Body(k'.content, k'.ts, TailOf(k'.parents)));
    LastCharacterTells(k.content, k.ts, k.parents);
    LastCharacterTells(k'.content, k'.ts, k'.parents);
  }

  // A first parent may swallow what stands before it.

  lemma PrefixedParents(prefix: string, parents: seq<string>)
    requires parents != []
    ensures Terminated([prefix + parents[0]] + parents[1..]) == prefix + Terminated(parents)
  {
    var longer := [prefix + parents[0]] + parents[1..];
    assert longer[1..] == parents[1..];
    assert prefix + parents[0] + "," + Terminated(parents[1..])
      == prefix + (parents[0] + "," + Terminated(parents[1..]));
  }

  lemma MergedParents(parents: seq<string>)
    requires |parents| >= 2
    ensures Terminated([parents[0] + "," + parents[1]] + parents[2..]) == Terminated(parents)
  {
    var merged, rest := [parents[0] + "," + parents[1]] + parents[2..], Terminated(parents[2..]);
    assert merged[1..] == parents[2..] && parents[1..][1..] == parents[2..];
    assert Terminated(parents[1..]) == parents[1] + "," + rest;
    PrefixSum(parents[0] + ",", parents[1], ",", rest, "");
  }

  /** The twin of a post whose content holds a time: what follows it goes to the parents. */
  function Shifted(k: Core, c0: string, t: i64): Core
    requires k.parents != [] && TimeAt(k.content, c0, t)
  {
    var rest := (k.content + "|")[|c0 + "|" + ShowInt(t) + "|"|..];
    Core(k.author, c0, t, [rest + ShowInt(k.ts) + "|" + k.parents[0]] + k.parents[1..])
  }

  /** The same characters, with the bars after c0 read as ending other fields. */
  lemma Regrouped(author: string, content: string, time: string, field: string, rest: string, list: string)
    requires content + "|" == field + "|" + rest
    ensures author + "|" + field + ("|" + (rest + time + "|" + list))
      == author + "|" + content + "|" + time + ("|" + list)
  {
    var tail := time + "|" + list;
    assert rest + time + "|" + list == rest + tail;
    assert author + "|" + field + ("|" + (rest + tail)) == author + "|" + (field + "|" + rest) + tail;
    assert author + "|" + content + "|" + time + ("|" + list) == author + "|" + (content + "|") + tail;
  }

  lemma ShiftedIsTwin(k: Core, c0: string, t: i64)
    requires k.parents != [] && TimeAt(k.content, c0, t)
    ensures Shifted(k, c0, t) != k && TextOf(Shifted(k, c0, t)) == TextOf(k)
  {
    var field := c0 + "|" + ShowInt(t);
    var rest := (k.content + "|")[|field + "|"|..];
    var s := Shifted(k, c0, t);
    PrefixedParents(rest + ShowInt(k.ts) + "|", k.parents);
    Regrouped(k.author, k.content, ShowInt(k.ts), field, rest, Terminated(k.parents));
    PrefixSum(k.author + "|", c0, "|", ShowInt(t), "");
    assert |s.content| < |k.content|;
  }

  lemma MergedIsTwin(k: Core)
    requires |k.parents| >= 2
    ensures var merged := k.(parents := [k.parents[0] + "," + k.parents[1]] + k.parents[2..]);
      merged != k && TextOf(merged) == TextOf(k)
  {
    MergedParents(k.parents);
  }

  lemma OneTerminated(p: string, parents: seq<string>)
    requires ',' !in p && Terminated(parents) == p + ","
    ensures parents == [p]
  {
    var s := p + ",";
    assert s[|parents[0]|] == ',';
    assert forall i :: 0 <= i < |p| ==> s[i] != ',';
    assert |parents[0]| == |p|;
    assert parents[0] == s[..|p|] == p;
    assert |Terminated(parents[1..])| == 0;
    assert parents[1..] == [];
  }

  /** A parent with a comma is also read as two. */
  lemma DividedIsTwin(k: Core)
    requires |k.parents| == 1 && ',' in k.parents[0]
    ensures HasTwin(k) || !Plain(k.author)
  {
    var p := k.parents[0];
    var i :| 0 <= i < |p| && p[i] == ',';
    var u, v := p[..i], p[i + 1..];
    var two := k.(parents := [u, v]);
    assert p == u + "," + v && k.parents[1..] == [] && two.parents[1..] == [v] && two.parents[1..][1..] == [];
    MergedParents(two.parents);
    assert two.parents[2..] == [] && [p] + [] == k.parents;
    assert two != k && TextOf(two) == TextOf(k);
  }

  /** The twin of a post whose parent holds a time: what stands before it goes to the
      content. */
  function Unshifted(k: Core, c0: string, t: i64): Core
    requires |k.parents| == 1 && ParentTimeAt(k.parents[0], c0, t)
  {
    var rest := ("|" + k.parents[0])[|c0 + "|" + ShowInt(t) + "|"|..];
    Core(k.author, k.content + "|" + ShowInt(k.ts) + c0, t, [rest])
  }

  lemma RegroupedParent(parent: string, c0: string, time: string, rest: string)
    requires "|" + parent == c0 + "|" + time + "|" + rest
    ensures "|" + (parent + ",") == c0 + "|" + time + ("|" + (rest + ","))
  {
    var field := c0 + "|" + time;
    Associative("|", parent, ",");
    Associative(field + "|", rest, ",");
    Associative(field, "|", rest + ",");
  }

  lemma UnshiftedIsTwin(k: Core, c0: string, t: i64)
    requires |k.parents| == 1 && ParentTimeAt(k.parents[0], c0, t)
    ensures Unshifted(k, c0, t) != k && TextOf(Unshifted(k, c0, t)) == TextOf(k)
  {
    var parent, time, own := k.parents[0], ShowInt(t), ShowInt(k.ts);
    var u, field := Unshifted(k, c0, t), c0 + "|" + time + "|";
    var rest := ("|" + parent)[|field|..];
    assert "|" + parent == field + rest;
    SingleTerminated(k.parents);
    SingleTerminated(u.parents);
    RegroupedParent(parent, c0, time, rest);
    PrefixSum(k.author + "|", k.content, "|", own, c0);
    PrefixSum(k.author + "|" + k.content + "|" + own, c0, "|", time, "|" + (rest + ","));
    assert |k.content| < |u.content|;
  }

  lemma SingleTerminated(parents: seq<string>)
    requires |parents| == 1
    ensures Terminated(parents) == parents[0] + ","
  {
    assert Terminated(parents[1..]) == "";
  }

  /** A shorter reading of content|ts|... ends at a bar of the content. */
  lemma EarlierBar(content: string, ts: i64, x: string, y: string, tail: string, tail': string)
    requires x == content + "|" + ShowInt(ts) && x + "|" + tail == y + "|" + tail' && |y| < |x|
    ensures content == y || y + "|" <= content
  {
    NumbersArePlain(ts);
    var s := x + "|" + tail;
    assert s[|y|] == '|' && x[|y|] == '|';
    assert y == s[..|y|] == x[..|y|];
    assert forall i :: |content| < i < |x| ==> x[i] in ShowInt(ts);
    assert |y| < |content| ==> content[|y|] == '|' && y == content[..|y|];
    assert |y| == |content| ==> y == content;
  }

  lemma Cancel(x: string, u: string, v: string)
    requires x + u == x + v
    ensures u == v
  {
    assert u == (x + u)[|x|..] && v == (x + v)[|x|..];
  }

  lemma PrefixOfShorter(field: string, rest: string, u: string)
    requires field + rest == u + "," && |field| <= |u|
    ensures field <= u
  {
    assert field == (field + rest)[..|field|] == (u + ",")[..|field|] == u[..|field|];
  }

  /** The bar after x is no later than the last bar of a longer reading. */
  lemma BarInContent(x: string, tail: string, c': string, t: i64, tail': string)
    requires x + "|" + tail == c' + "|" + ShowInt(t) + "|" + tail'
    requires |x| < |c' + "|" + ShowInt(t)|
    ensures x <= c'
  {
    var y := c' + "|" + ShowInt(t);
    var s := x + "|" + tail;
    NumbersArePlain(t);
    assert s[|x|] == '|' && s[..|x|] == x && s[..|c'|] == c';
    assert forall i :: |c'| < i < |y| ==> s[i] in ShowInt(t);
    assert |x| <= |c'|;
    assert x == c'[..|x|];
  }

  /** A longer reading of content|ts|parent, has its time between bars of the parent. */
  lemma LaterBar(x: string, parent: string, c': string, t: i64, tail': string)
    requires x + "|" + (parent + ",") == c' + "|" + ShowInt(t) + "|" + tail'
    requires |x| < |c' + "|" + ShowInt(t)|
    ensures |x| <= |c'| && ParentTimeAt(parent, c'[|x|..], t)
  {
    BarInContent(x, parent + ",", c', t, tail');
    var c0, time := c'[|x|..], ShowInt(t);
    assert c' == x + c0;
    PrefixSum(x, c0, "|", time, "|");
    Associative(x, c0 + "|" + time + "|", tail');
    Associative(x, "|", parent + ",");
    Associative("|", parent, ",");
    Cancel(x, "|" + parent + ",", c0 + "|" + time + "|" + tail');
    BarBeforeComma(c0 + "|" + time, "|" + parent, tail');
    PrefixOfShorter(c0 + "|" + time + "|", tail', "|" + parent);
  }

  lemma BarBeforeComma(field: string, u: string, rest: string)
    requires u + "," == field + "|" + rest
    ensures |field| < |u|
  {
    assert (u + ",")[|field|] == '|' && (u + ",")[|u|] == ',';
  }

  /** With one parent, another reading divides it, or takes the time from inside the
      content or from inside the parent. */
  lemma OtherReading(k: Core, k': Core)
    requires |k.parents| == 1 && k'.parents != [] && k.author == k'.author && k != k'
    requires Body(k.content, k.ts, TailOf(k.parents)) == Body(k'.content, k'.ts, TailOf(k'.parents))
    ensures HoldsTime(k.content) || ',' in k.parents[0] || ParentHoldsTime(k.parents[0])
  {
    var x, y := k.content + "|" + ShowInt(k.ts), k'.content + "|" + ShowInt(k'.ts);
    var tail, tail' := Terminated(k.parents), Terminated(k'.parents);
    SingleTerminated(k.parents);
    BodyWithParents(k.content, k.ts, tail);
    BodyWithParents(k'.content, k'.ts, tail');
    if |y| < |x| {
      EarlierBar(k.content, k.ts, x, y, tail, tail');
      assert TimeAt(k.content, k'.content, k'.ts);
    } else if |x| < |y| {
      LaterBar(x, k.parents[0], k'.content, k'.ts, tail');
    } else {
      SameFields(k, k', x, y, tail, tail');
    }
  }

  lemma SameFields(k: Core, k': Core, x: string, y: string, tail: string, tail': string)
    requires |k.parents| == 1 && k.author == k'.author && k != k' && |x| == |y| && x + "|" + tail == y + "|" + tail'
    requires x == k.content + "|" + ShowInt(k.ts) && y == k'.content + "|" + ShowInt(k'.ts)
    requires tail == k.parents[0] + "," && tail' == Terminated(k'.parents)
    ensures ',' in k.parents[0]
  {
    var s := x + "|" + tail;
    assert x == s[..|x|] == y && tail == s[|x| + 1..] == tail';
    ContentAndTime(k.content, k.ts, k'.content, k'.ts);
    assert k.parents == [k.parents[0]];
    if ',' !in k.parents[0] {
      OneTerminated(k.parents[0], k'.parents);
    }
  }

  /** Exactly which posts share their hashed text with another one, whatever their
      parents look like. */
  lemma TwinIff(k: Core)
    requires Plain(k.author)
    ensures HasTwin(k) <==> ReadsOtherwise(k.content, k.parents)
  {
    if ReadsOtherwise(k.content, k.parents) {
      OtherwiseHasTwin(k);
    }
    if HasTwin(k) && |k.parents| < 2 {
      var other: Core :| other != k && Plain(other.author) && TextOf(other) == TextOf(k);
      SameTextSameBody(k, other);
      if k.parents == [] {
        BodyInjective(k.content, k.ts, k.parents, other.content, other.ts, other.parents);
        assert false;
      }
      OtherReading(k, other);
    }
  }

  lemma OtherwiseHasTwin(k: Core)
    requires Plain(k.author) && ReadsOtherwise(k.content, k.parents)
    ensures HasTwin(k)
  {
    if |k.parents| >= 2 {
      MergedIsTwin(k);
    } else if HoldsTime(k.content) {
      var c0, t: i64 :| TimeAt(k.content, c0, t);
      ShiftedIsTwin(k, c0, t);
    } else if ',' in k.parents[0] {
      DividedIsTwin(k);
    } else {
      var c0, t: i64 :| ParentTimeAt(k.parents[0], c0, t);
      UnshiftedIsTwin(k, c0, t);
    }
  }

  /** A parent without bars, a digest say, holds no time. */
  lemma ParentTimeHasBar(parent: string)
    ensures ParentHoldsTime(parent) ==> '|' in parent
  {
    if c0, t: i64 :| ParentTimeAt(parent, c0, t) {
      var field, s := c0 + "|" + ShowInt(t) + "|", "|" + parent;
      assert field[|field| - 1] == '|' && s[|field| - 1] == field[|field| - 1];
      assert s[|field| - 1] == parent[|field| - 2];
    }
  }

  lemma SeparableReadsOtherwise(content: string, parents: seq<string>)
    requires Separable(parents)
    ensures ReadsOtherwise(content, parents) <==> |parents| >= 2 || (|parents| == 1 && HoldsTime(content))
  {
    if |parents| == 1 {
      ParentTimeHasBar(parents[0]);
    }
  }

  // ── The signature covers no more than the hash ──────────────────────

  lemma DropLast(head: string, list: string)
    ensures var s := head + (list + ","); s[..|s| - 1] == head + list
  {
  }

  /** What is signed after id and author is what is hashed after the author, up to the
      last comma. */
  lemma PayloadFromBody(id: string, k: Core)
    ensures var body := Body(k.content, k.ts, TailOf(k.parents));
      body != [] &&
      SigningPayload(id, k.author, k.content, k.ts, k.parents)
        == id + "|" + k.author + "|" + if k.parents == [] then body else body[..|body| - 1]
  {
    var head, joined := k.content + "|" + ShowInt(k.ts), Join(k.parents, ',');
    PrefixSum(id + "|" + k.author + "|", k.content, "|", ShowInt(k.ts), if k.parents == [] then "" else "|" + joined);
    if k.parents != [] {
      TerminatedIsJoined(k.parents);
      Associative("|", joined, ",");
      DropLast(head, "|" + joined);
    }
  }

  /** The post k under the id and the signature of n. */
  function Posing(n: Node, k: Core): Node {
    Node(n.id, k.author, k.content, k.ts, k.parents, n.signature)
  }

  /** Posts with one hashed text are verified alike under one id and signature. */
  lemma TwinVerifiesAlike(c: Crypto, n: Node, k: Core)
    requires Plain(n.author) && Plain(k.author) && TextOf(k) == InputOf(n)
    ensures FaultOf(c, Posing(n, k)) == FaultOf(c, n)
  {
    SameTextSameBody(CoreOf(n), k);
    PayloadFromBody(n.id, CoreOf(n));
    PayloadFromBody(n.id, k);
    assert PayloadOf(Posing(n, k)) == PayloadOf(n);
  }

  /** Another post verifies under the id and signature of n, without any collision. */
  ghost predicate Alterable(c: Crypto, n: Node) {
    exists k: Core :: k != CoreOf(n) && TextOf(k) == InputOf(n) && FaultOf(c, Posing(n, k)) == None
  }

  /** A post that verifies can be altered unnoticed exactly if it has a twin. */
  lemma AlterableIff(c: Crypto, n: Node)
    requires Sound(c) && FaultOf(c, n) == None
    ensures Alterable(c, n) <==> ReadsOtherwise(n.content, n.parents)
  {
    TwinIff(CoreOf(n));
    if HasTwin(CoreOf(n)) {
      var k: Core :| k != CoreOf(n) && Plain(k.author) && TextOf(k) == TextOf(CoreOf(n));
      TwinVerifiesAlike(c, n, k);
    }
    if Alterable(c, n) {
      var k: Core :| k != CoreOf(n) && TextOf(k) == InputOf(n) && FaultOf(c, Posing(n, k)) == None;
      assert Plain(k.author);
    }
  }

  /** In a linked timeline that verifies, such as appends build: exactly the posts after
      the first whose content holds a time. */
  lemma LinkedAlterableIff(c: Crypto, nodes: seq<Node>, i: nat)
    requires Sound(c) && AllSound(c, nodes) && Linked(nodes) && i < |nodes|
    ensures Alterable(c, nodes[i]) <==> i > 0 && HoldsTime(nodes[i].content)
  {
    VerifiedIsHashChecked(c, nodes);
    CheckedIdsAreDigests(c, nodes);
    LinkedParentsAreSeparable(nodes, i);
    AlterableIff(c, nodes[i]);
    SeparableReadsOtherwise(nodes[i].content, nodes[i].parents);
    assert nodes[i].parents == ParentsFor(nodes[..i]);
  }

  /** A post with one parent whose content ends in a time, altered: the time becomes the
      post's own, and the post's own time part of the parent. */
  function Altered(p: Node, note: string, t: i64): Node
    requires |p.parents| == 1
  {
    p.(content := note, ts := t, parents := [ShowInt(p.ts) + "|" + p.parents[0]])
  }

  lemma AlteredIsShifted(p: Node, note: string, t: i64)
    requires |p.parents| == 1 && p.content == note + "|" + ShowInt(t)
    ensures CoreOf(Altered(p, note, t)) == Shifted(CoreOf(p), note, t)
  {
    assert (p.content + "|")[|note + "|" + ShowInt(t) + "|"|..] == "";
    assert "" + ShowInt(p.ts) + "|" + p.parents[0] == ShowInt(p.ts) + "|" + p.parents[0];
    assert p.parents[1..] == [];
  }

  lemma AlteredVerifies(c: Crypto, p: Node, note: string, t: i64)
    requires Plain(p.author) && |p.parents| == 1 && p.content == note + "|" + ShowInt(t)
    ensures var q := Altered(p, note, t);
      FaultOf(c, q) == FaultOf(c, p) && InputOf(q) == InputOf(p) && CoreOf(q) != CoreOf(p)
  {
    AlteredIsShifted(p, note, t);
    ShiftedIsTwin(CoreOf(p), note, t);
    TwinVerifiesAlike(c, p, CoreOf(Altered(p, note, t)));
  }

  lemma PairIsSound(c: Crypto, g: Node, p: Node)
    requires FaultOf(c, g) == None && FaultOf(c, p) == None
    ensures AllSound(c, [g, p])
  {
  }

  lemma PairIsLinked(g: Node, p: Node)
    requires g.parents == [] && p.parents == [g.id]
    ensures Linked([g, p])
  {
    assert [g, p][..0] == [] && [g, p][..1] == [g];
  }

  lemma PairDiffers(g: Node, p: Node, q: Node)
    requires q.id == p.id && InputOf(q) == InputOf(p) && CoreOf(q) != CoreOf(p)
    ensures Ids([g, p]) == Ids([g, q]) && Texts([g, p]) == Texts([g, q]) && !SameHistory([g, p], [g, q])
  {
    assert Cores([g, p])[1] != Cores([g, q])[1];
  }

  /** A timeline built by two appends and an altered copy of it: both verify, with the
      same ids and the same hashed texts, yet they tell different histories. */
  lemma AlteredTipVerifies(c: Crypto, id: Identity, first: string, t0: i64, note: string, t: i64, ts: i64)
    requires Sound(c) && SignsFor(c, id)
    ensures var g := SignedNode(c, id, first, t0, []);
      var p := SignedNode(c, id, note + "|" + ShowInt(t), ts, [g.id]);
      var q := Altered(p, note, t);
      && AllSound(c, [g, p]) && Linked([g, p]) && AllSound(c, [g, q])
      && Ids([g, p]) == Ids([g, q]) && Texts([g, p]) == Texts([g, q])
      && !SameHistory([g, p], [g, q])
  {
    var g := SignedNode(c, id, first, t0, []);
    var p := SignedNode(c, id, note + "|" + ShowInt(t), ts, [g.id]);
    SignedNodeIsSound(c, id, first, t0, []);
    SignedNodeIsSound(c, id, note + "|" + ShowInt(t), ts, [g.id]);
    AlteredVerifies(c, p, note, t);
    PairIsSound(c, g, p);
    PairIsSound(c, g, Altered(p, note, t));
    PairIsLinked(g, p);
    PairDiffers(g, p, Altered(p, note, t));
  }

  // ── What the protocol document asks for besides ─────────────────────

  /** Every parent is the id of an earlier post. */
  ghost predicate ParentsPresent(nodes: seq<Node>) {
    forall i, p :: 0 <= i < |nodes| && p in nodes[i].parents ==> p in Ids(nodes[..i])
  }

  ghost predicate DistinctIds(nodes: seq<Node>) {
    forall i, j :: 0 <= i < j < |nodes| ==> nodes[i].id != nodes[j].id
  }

  /** The documented verification: nodes, parents, and no id twice. */
  ghost predicate Documented(c: Crypto, nodes: seq<Node>) {
    AllSound(c, nodes) && ParentsPresent(nodes) && DistinctIds(nodes)
  }

  /** One more post, signed correctly, always verifies; the documented check looks at
      its parents and its id. */
  lemma SignedPostIsAccepted(c: Crypto, nodes: seq<Node>, id: Identity, content: string, ts: i64, parents: seq<string>)
    requires AllSound(c, nodes) && SignsFor(c, id)
    ensures var n := SignedNode(c, id, content, ts, parents);
      && AllSound(c, nodes + [n])
      && (Documented(c, nodes + [n]) <==>
            Documented(c, nodes) && (forall p :: p in parents ==> p in Ids(nodes)) && n.id !in Ids(nodes))
  {
    var n := SignedNode(c, id, content, ts, parents);
    var longer := nodes + [n];
    SignedNodeIsSound(c, id, content, ts, parents);
    ParentsPresentSnoc(nodes, n);
    DistinctIdsSnoc(nodes, n);
  }

  lemma ParentsPresentSnoc(nodes: seq<Node>, n: Node)
    ensures ParentsPresent(nodes + [n]) <==> ParentsPresent(nodes) && forall p :: p in n.parents ==> p in Ids(nodes)
  {
    var longer := nodes + [n];
    assert longer[..|nodes|] == nodes && longer[|nodes|] == n;
    assert forall i :: 0 <= i < |nodes| ==> longer[..i] == nodes[..i] && longer[i] == nodes[i];
  }

  lemma DistinctIdsSnoc(nodes: seq<Node>, n: Node)
    ensures DistinctIds(nodes + [n]) <==> DistinctIds(nodes) && n.id !in Ids(nodes)
  {
    var longer := nodes + [n];
    assert forall i :: 0 <= i < |nodes| ==> longer[i] == nodes[i] && Ids(nodes)[i] == nodes[i].id;
    assert longer[|nodes|] == n;
  }

  /** A post that names a parent no post has, in a timeline that verifies. */
  lemma DanglingParentVerifies(c: Crypto, id: Identity, first: string, second: string, ts: i64)
    requires Sound(c) && SignsFor(c, id)
    ensures var nodes := [SignedNode(c, id, first, ts, []), SignedNode(c, id, second, ts, ["missing"])];
      && AllSound(c, nodes) && "missing" !in Ids(nodes)
      && !ParentsPresent(nodes) && !Documented(c, nodes)
  {
    var g, n := SignedNode(c, id, first, ts, []), SignedNode(c, id, second, ts, ["missing"]);
    SignedNodeIsSound(c, id, first, ts, []);
    SignedPostIsAccepted(c, [g], id, second, ts, ["missing"]);
    assert [g] + [n] == [g, n];
    assert |g.id| == |n.id| == 64;
    assert "missing" !in Ids([g]) && "missing" in n.parents;
    ParentsPresentSnoc([g], n);
  }

  lemma LinkedParentsArePresent(nodes: seq<Node>)
    requires Linked(nodes)
    ensures ParentsPresent(nodes)
  {
    forall i, p | 0 <= i < |nodes| && p in nodes[i].parents
      ensures p in Ids(nodes[..i])
    {
      assert nodes[i].parents == ParentsFor(nodes[..i]);
      assert Ids(nodes[..i])[i - 1] == nodes[i - 1].id;
    }
  }

  /** Every timeline built by appends passes the documented check too, unless two of its
      own texts have one digest. */
  lemma BuiltIsAsDocumented(c: Crypto, posts: seq<Post>)
    requires Sound(c) && forall i :: 0 <= i < |posts| ==> SignsFor(c, posts[i].id)
    ensures var nodes := Built(c, posts);
      ParentsPresent(nodes) && (Documented(c, nodes) || Clash(Ids(nodes), Ids(nodes), Texts(nodes), Texts(nodes)))
  {
    var nodes := Built(c, posts);
    BuiltVerifies(c, posts);
    LinkedParentsArePresent(nodes);
    VerifiedIsHashChecked(c, nodes);
    CheckedIsReadable(c, nodes, nodes);
    LinkedIsChained(nodes, nodes);
    forall i, j | 0 <= i < j < |nodes| && nodes[i].id == nodes[j].id
      ensures Clash(Ids(nodes), Ids(nodes), Texts(nodes), Texts(nodes))
    {
      WalkBack(Ids(nodes), Ids(nodes), Texts(nodes), Texts(nodes), Cores(nodes), Cores(nodes), i, j);
    }
  }

  // ── The documented check on any timeline that verifies ──────────────

  /** No post occurs twice. */
  ghost predicate NoRepeats(nodes: seq<Node>) {
    forall i, j :: 0 <= i < j < |nodes| ==> CoreOf(nodes[i]) != CoreOf(nodes[j])
  }

  lemma PresentParentsAreSeparable(nodes: seq<Node>, i: nat)
    requires DigestIds(nodes) && ParentsPresent(nodes) && i < |nodes|
    ensures Separable(nodes[i].parents)
  {
    forall k | 0 <= k < |nodes[i].parents|
      ensures '|' !in nodes[i].parents[k] && ',' !in nodes[i].parents[k]
    {
      var p := nodes[i].parents[k];
      assert p in Ids(nodes[..i]);
      var j :| 0 <= j < i && Ids(nodes[..i])[j] == p;
      DigestIsSeparable(nodes[j].id);
    }
  }

  /** Two posts under one id, each in a timeline with all its parents, are the same. */
  lemma SameIdSamePost(c: Crypto, a: seq<Node>, b: seq<Node>, k: nat, l: nat)
    requires Sound(c) && HashChecked(c, a) && HashChecked(c, b) && ParentsPresent(a) && ParentsPresent(b)
    requires k < |a| && l < |b| && a[k].id == b[l].id
    ensures CoreOf(a[k]) == CoreOf(b[l]) || Clash(Ids(a), Ids(b), Texts(a), Texts(b))
  {
    if InputOf(a[k]) == InputOf(b[l]) {
      CheckedIdsAreDigests(c, a);
      CheckedIdsAreDigests(c, b);
      PresentParentsAreSeparable(a, k);
      PresentParentsAreSeparable(b, l);
      HashInputInjective(a[k].author, a[k].content, a[k].ts, a[k].parents, b[l].author, b[l].content, b[l].ts,
        b[l].parents);
    } else {
      assert Texts(a)[k] != Texts(b)[l] && Ids(a)[k] == Ids(b)[l];
    }
  }

  lemma RepeatedIsSameId(c: Crypto, nodes: seq<Node>)
    requires HashChecked(c, nodes) && DistinctIds(nodes)
    ensures NoRepeats(nodes)
  {
    forall i, j | 0 <= i < j < |nodes|
      ensures CoreOf(nodes[i]) != CoreOf(nodes[j])
    {
      assert nodes[i].id != nodes[j].id;
    }
  }

  lemma NewPostsNewIds(c: Crypto, nodes: seq<Node>)
    requires Sound(c) && HashChecked(c, nodes) && ParentsPresent(nodes) && NoRepeats(nodes)
    ensures DistinctIds(nodes) || Clash(Ids(nodes), Ids(nodes), Texts(nodes), Texts(nodes))
  {
    forall i, j | 0 <= i < j < |nodes| && nodes[i].id == nodes[j].id
      ensures Clash(Ids(nodes), Ids(nodes), Texts(nodes), Texts(nodes))
    {
      SameIdSamePost(c, nodes, nodes, i, j);
      assert CoreOf(nodes[i]) != CoreOf(nodes[j]);
    }
  }

  /** A timeline that verifies meets the document exactly if every named parent is an
      earlier post and no post is repeated, unless two of its texts have one digest. */
  lemma VerifiedIsDocumentedIff(c: Crypto, nodes: seq<Node>)
    requires Sound(c) && AllSound(c, nodes)
    ensures (Documented(c, nodes) <==> ParentsPresent(nodes) && NoRepeats(nodes))
         || Clash(Ids(nodes), Ids(nodes), Texts(nodes), Texts(nodes))
    ensures Documented(c, nodes) ==> ParentsPresent(nodes) && NoRepeats(nodes)
  {
    VerifiedIsHashChecked(c, nodes);
    if DistinctIds(nodes) {
      RepeatedIsSameId(c, nodes);
    }
    if ParentsPresent(nodes) && NoRepeats(nodes) {
      NewPostsNewIds(c, nodes);
    }
  }

  /** A post to be signed, with parents chosen at will. */
  datatype Draft = Draft(id: Identity, content: string, ts: i64, parents: seq<string>)

  function Signed(c: Crypto, d: Draft): Node {
    SignedNode(c, d.id, d.content, d.ts, d.parents)
  }

  function SignedAll(c: Crypto, drafts: seq<Draft>): seq<Node> {
    seq(|drafts|, i requires 0 <= i < |drafts| => Signed(c, drafts[i]))
  }

  /** What each draft says is said by no other one. */
  ghost predicate AllDifferent(drafts: seq<Draft>) {
    forall i, j :: 0 <= i < j < |drafts| ==>
      (drafts[i].id.did, drafts[i].content, drafts[i].ts, drafts[i].parents)
        != (drafts[j].id.did, drafts[j].content, drafts[j].ts, drafts[j].parents)
  }

  /** Over every series of correctly signed posts, whatever parents they name: the code
      accepts.  The documented check accepts exactly if each named parent is the id of an
      earlier post and no post is repeated, unless two of the texts have one digest. */
  lemma SignedSeriesIsAccepted(c: Crypto, drafts: seq<Draft>)
    requires Sound(c) && forall i :: 0 <= i < |drafts| ==> SignsFor(c, drafts[i].id)
    ensures var nodes := SignedAll(c, drafts);
      && AllSound(c, nodes)
      && ((Documented(c, nodes) <==> ParentsPresent(nodes) && AllDifferent(drafts))
          || Clash(Ids(nodes), Ids(nodes), Texts(nodes), Texts(nodes)))
  {
    var nodes := SignedAll(c, drafts);
    forall i | 0 <= i < |nodes|
      ensures FaultOf(c, nodes[i]) == None
    {
      SignedNodeIsSound(c, drafts[i].id, drafts[i].content, drafts[i].ts, drafts[i].parents);
    }
    VerifiedIsDocumentedIff(c, nodes);
    DifferentDrafts(c, drafts);
  }

  lemma DifferentDrafts(c: Crypto, drafts: seq<Draft>)
    ensures AllDifferent(drafts) <==> NoRepeats(SignedAll(c, drafts))
  {
    var nodes := SignedAll(c, drafts);
    forall i | 0 <= i < |drafts|
      ensures CoreOf(nodes[i]) == Core(drafts[i].id.did, drafts[i].content, drafts[i].ts, drafts[i].parents)
    {
    }
  }

  // ── Same tip, same ancestors ────────────────────────────────────────

  /** Post i is post k or reached from it along parents. */
  ghost predicate Ancestor(nodes: seq<Node>, i: nat, k: nat)
    decreases k
  {
    i < |nodes| && k < |nodes| && (i == k || exists m: nat :: ParentOf(nodes, m, k) && Ancestor(nodes, i, m))
  }

  ghost predicate ParentOf(nodes: seq<Node>, m: nat, k: nat) {
    m < k < |nodes| && nodes[m].id in nodes[k].parents
  }

  /** b has post i of a too, under its id, among the ancestors of post l. */
  ghost predicate Shared(a: seq<Node>, b: seq<Node>, i: nat, l: nat)
    requires i < |a|
  {
    exists j: nat :: Ancestor(b, j, l) && b[j].id == a[i].id && CoreOf(b[j]) == CoreOf(a[i])
  }

  lemma ParentHasCounterpart(a: seq<Node>, b: seq<Node>, m: nat, k: nat, l: nat) returns (l': nat)
    requires ParentsPresent(b) && ParentOf(a, m, k) && l < |b| && b[l].parents == a[k].parents
    ensures ParentOf(b, l', l) && b[l'].id == a[m].id
  {
    assert a[m].id in b[l].parents;
    assert a[m].id in Ids(b[..l]);
    l' :| 0 <= l' < l && Ids(b[..l])[l'] == a[m].id;
  }

  /** From two posts with one id back along the parents. */
  lemma {:induction false} AncestorIsShared(c: Crypto, a: seq<Node>, b: seq<Node>, i: nat, k: nat, l: nat)
    requires Sound(c) && HashChecked(c, a) && HashChecked(c, b) && ParentsPresent(a) && ParentsPresent(b)
    requires Ancestor(a, i, k) && l < |b| && a[k].id == b[l].id
    ensures Shared(a, b, i, l) || Clash(Ids(a), Ids(b), Texts(a), Texts(b))
    decreases k
  {
    SameIdSamePost(c, a, b, k, l);
    if CoreOf(a[k]) == CoreOf(b[l]) {
      if i == k {
        assert Ancestor(b, l, l);
      } else {
        var m: nat :| ParentOf(a, m, k) && Ancestor(a, i, m);
        var l' := ParentHasCounterpart(a, b, m, k, l);
        AncestorIsShared(c, a, b, i, m, l');
        if Shared(a, b, i, l') {
          var j: nat :| Ancestor(b, j, l') && b[j].id == a[i].id && CoreOf(b[j]) == CoreOf(a[i]);
          assert Ancestor(b, j, l);
        }
      }
    }
  }

  lemma ClashIsMutual(a: seq<Node>, b: seq<Node>)
    ensures Clash(Ids(a), Ids(b), Texts(a), Texts(b)) <==> Clash(Ids(b), Ids(a), Texts(b), Texts(a))
  {
  }

  /** Timelines of any shape, with branches and several parents: if both verify and have
      all their parents, posts with one id have the same ancestors, equal in author,
      content, ts and parents, unless two texts have one digest. */
  lemma SameIdSameAncestors(c: Crypto, a: seq<Node>, b: seq<Node>, k: nat, l: nat)
    requires Sound(c) && AllSound(c, a) && AllSound(c, b) && ParentsPresent(a) && ParentsPresent(b)
    requires k < |a| && l < |b| && a[k].id == b[l].id
    ensures Clash(Ids(a), Ids(b), Texts(a), Texts(b))
         || ((forall i: nat :: Ancestor(a, i, k) ==> Shared(a, b, i, l))
             && (forall j: nat :: Ancestor(b, j, l) ==> Shared(b, a, j, k)))
  {
    VerifiedIsHashChecked(c, a);
    VerifiedIsHashChecked(c, b);
    ClashIsMutual(a, b);
    if !Clash(Ids(a), Ids(b), Texts(a), Texts(b)) {
      forall i: nat | Ancestor(a, i, k)
        ensures Shared(a, b, i, l)
      {
        AncestorIsShared(c, a, b, i, k, l);
      }
      forall j: nat | Ancestor(b, j, l)
        ensures Shared(b, a, j, k)
      {
        AncestorIsShared(c, b, a, j, l, k);
      }
    }
  }
}
