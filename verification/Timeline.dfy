/** The append-only, hash-linked, signed timeline. */
module Timeline {
  import opened Base
  import opened Decimal

  /** One post. */
  datatype Node = Node(id: string, author: string, content: string, ts: i64, parents: seq<string>, signature: string)

  // ── Payloads ────────────────────────────────────────────────────────

  /** Every parent id followed by a comma. */
  function Terminated(parents: seq<string>): string {
    if parents == [] then "" else parents[0] + "," + Terminated(parents[1..])
  }

  /** What is hashed: author|content|ts, then |p1,p2,..., if there are parents. */
  function HashInput(author: string, content: string, ts: i64, parents: seq<string>): string {
    author + "|" + content + "|" + ShowInt(ts) + if parents == [] then "" else "|" + Terminated(parents)
  }

  /** The hasher is fed piece by piece; what counts is the concatenation. */
  method FeedHasher(author: string, content: string, ts: i64, parents: seq<string>) returns (fed: string)
    ensures fed == HashInput(author, content, ts, parents)
  {
    fed := author;
    fed := fed + "|";
    fed := fed + content;
    fed := fed + "|";
    fed := fed + ShowInt(ts);
    if parents != [] {
      fed := fed + "|";
      ghost var start := fed;
      for i := 0 to |parents|
        invariant fed + Terminated(parents[i..]) == start + Terminated(parents)
      {
        assert parents[i..][1..] == parents[i + 1..];
        assert fed + (parents[i] + "," + Terminated(parents[i + 1..]))
          == fed + parents[i] + "," + Terminated(parents[i + 1..]);
        fed := fed + parents[i];
        fed := fed + ",";
      }
      assert fed + "" == fed;
    }
  }

  /** What is signed: id|author|content|ts, then |p1,p2 if there are parents. */
  function SigningPayload(id: string, author: string, content: string, ts: i64, parents: seq<string>): string {
    id + "|" + author + "|" + content + "|" + ShowInt(ts) + if parents == [] then "" else "|" + Join(parents, ',')
  }

  lemma {:induction false} TerminatedIsJoined(parents: seq<string>)
    requires parents != []
    ensures Terminated(parents) == Join(parents, ',') + ","
  {
    if |parents| == 1 {
      assert Terminated(parents[1..]) == "";
    } else {
      TerminatedIsJoined(parents[1..]);
      Associative(parents[0] + ",", Join(parents[1..], ','), ",");
    }
  }

  /** Both texts written out: the fields between bars, the time in decimal, the parents
      with commas, in the hashed text with one after the last as well. */
  lemma TextsWrittenOut(id: string, author: string, content: string, ts: i64, parents: seq<string>)
    ensures HashInput(author, content, ts, parents)
         == author + "|" + content + "|" + ShowInt(ts) + if parents == [] then "" else "|" + (Join(parents, ',') + ",")
    ensures SigningPayload(id, author, content, ts, parents)
         == id + "|" + author + "|" + content + "|" + ShowInt(ts)
          + if parents == [] then "" else "|" + Join(parents, ',')
  {
    if parents != [] {
      TerminatedIsJoined(parents);
    }
  }

  // ── Reading a payload back ──────────────────────────────────────────

  predicate Plain(s: string) {
    '|' !in s
  }

  /** The text before the first bar and after it are determined. */
  lemma FirstBar(a: string, x: string, b: string, y: string)
    requires Plain(a) && Plain(b) && a + "|" + x == b + "|" + y
    ensures a == b && x == y
  {
    var s := a + "|" + x;
    assert s[|a|] == '|' && s[|b|] == '|';
    assert forall i :: 0 <= i < |a| ==> s[i] == a[i];
    assert forall i :: 0 <= i < |b| ==> s[i] == b[i];
    assert |a| == |b|;
    assert a == s[..|a|] && b == s[..|b|];
    assert x == s[|a| + 1..] && y == s[|b| + 1..];
  }

  /** So are the text after the last bar and before it. */
  lemma LastBar(x: string, a: string, y: string, b: string)
    requires Plain(a) && Plain(b) && x + "|" + a == y + "|" + b
    ensures a == b && x == y
  {
    var s := x + "|" + a;
    assert s[|x|] == '|' && s[|y|] == '|';
    assert forall i :: |x| < i < |s| ==> s[i] == a[i - |x| - 1];
    assert forall i :: |y| < i < |s| ==> s[i] == b[i - |y| - 1];
    assert |x| == |y|;
    assert x == s[..|x|] && y == s[..|y|];
    assert a == s[|x| + 1..] && b == s[|y| + 1..];
  }

  lemma NumbersArePlain(ts: i64)
    ensures Plain(ShowInt(ts)) && ShowInt(ts) != [] && ',' !in ShowInt(ts)
  {
  }

  /** Parent ids usable in a hash input. */
  predicate Separable(parents: seq<string>) {
    forall i :: 0 <= i < |parents| ==> '|' !in parents[i] && ',' !in parents[i]
  }

  lemma {:induction false} TerminatedShape(parents: seq<string>)
    requires Separable(parents) && parents != []
    ensures Plain(Terminated(parents))
  {
    if |parents| > 1 {
      TerminatedShape(parents[1..]);
    } else {
      assert Terminated(parents[1..]) == "";
    }
  }

  lemma FirstComma(a: string, x: string, b: string, y: string)
    requires ',' !in a && ',' !in b && a + "," + x == b + "," + y
    ensures a == b && x == y
  {
    var s := a + "," + x;
    assert s[|a|] == ',' && s[|b|] == ',';
    assert forall i :: 0 <= i < |a| ==> s[i] == a[i];
    assert forall i :: 0 <= i < |b| ==> s[i] == b[i];
    assert |a| == |b|;
    assert a == s[..|a|] && b == s[..|b|];
    assert x == s[|a| + 1..] && y == s[|b| + 1..];
  }

  lemma {:induction false} TerminatedInjective(p: seq<string>, q: seq<string>)
    requires Separable(p) && Separable(q) && Terminated(p) == Terminated(q)
    ensures p == q
  {
    if p != [] && q != [] {
      FirstComma(p[0], Terminated(p[1..]), q[0], Terminated(q[1..]));
      TerminatedInjective(p[1..], q[1..]);
      assert p == [p[0]] + p[1..] && q == [q[0]] + q[1..];
    }
  }

  /** content|ts with a plain timestamp text: read from the right. */
  lemma ContentAndTime(c: string, t: i64, c': string, t': i64)
    requires c + "|" + ShowInt(t) == c' + "|" + ShowInt(t')
    ensures c == c' && t == t'
  {
    NumbersArePlain(t);
    NumbersArePlain(t');
    LastBar(c, ShowInt(t), c', ShowInt(t'));
    ShowIntInjective(t, t');
  }

  function Body(content: string, ts: i64, tail: string): string {
    content + "|" + ShowInt(ts) + tail
  }

  lemma HashInputIsAuthorThenBody(author: string, content: string, ts: i64, parents: seq<string>)
    ensures HashInput(author, content, ts, parents)
         == author + "|" + Body(content, ts, if parents == [] then "" else "|" + Terminated(parents))
  {
  }

  lemma {:induction false} TerminatedEndsInComma(parents: seq<string>)
    requires parents != []
    ensures Terminated(parents) != [] && Terminated(parents)[|Terminated(parents)| - 1] == ','
  {
    if |parents| > 1 {
      TerminatedEndsInComma(parents[1..]);
    } else {
      assert Terminated(parents[1..]) == "";
    }
  }

  /** With parents the input ends in a comma, without them in a digit. */
  lemma LastCharacterTells(content: string, ts: i64, parents: seq<string>)
    ensures var body := Body(content, ts, if parents == [] then "" else "|" + Terminated(parents));
      body != [] && (body[|body| - 1] == ',' <==> parents != [])
  {
    NumbersArePlain(ts);
    var text := ShowInt(ts);
    assert text[|text| - 1] in text;
    if parents != [] {
      TerminatedEndsInComma(parents);
    }
  }

  lemma BodyWithParents(content: string, ts: i64, list: string)
    ensures Body(content, ts, "|" + list) == content + "|" + ShowInt(ts) + "|" + list
    ensures Body(content, ts, "") == content + "|" + ShowInt(ts)
  {
  }

  lemma BodyInjective(content: string, ts: i64, parents: seq<string>, content': string, ts': i64, parents': seq<string>)
    requires Separable(parents) && Separable(parents')
    requires Body(content, ts, if parents == [] then "" else "|" + Terminated(parents))
          == Body(content', ts', if parents' == [] then "" else "|" + Terminated(parents'))
    ensures content == content' && ts == ts' && parents == parents'
  {
    LastCharacterTells(content, ts, parents);
    LastCharacterTells(content', ts', parents');
    BodyWithParents(content, ts, Terminated(parents));
    BodyWithParents(content', ts', Terminated(parents'));
    if parents != [] {
      TerminatedShape(parents);
      TerminatedShape(parents');
      LastBar(content + "|" + ShowInt(ts), Terminated(parents), content' + "|" + ShowInt(ts'), Terminated(parents'));
      TerminatedInjective(parents, parents');
    }
    ContentAndTime(content, ts, content', ts');
  }

  /** The hashed text is unambiguous although content may hold any character. */
  lemma HashInputInjective(
    author: string, content: string, ts: i64, parents: seq<string>,
    author': string, content': string, ts': i64, parents': seq<string>)
    requires Plain(author) && Plain(author') && Separable(parents) && Separable(parents')
    requires HashInput(author, content, ts, parents) == HashInput(author', content', ts', parents')
    ensures author == author' && content == content' && ts == ts' && parents == parents'
  {
    var tail, tail' := if parents == [] then "" else "|" + Terminated(parents),
                       if parents' == [] then "" else "|" + Terminated(parents');
    HashInputIsAuthorThenBody(author, content, ts, parents);
    HashInputIsAuthorThenBody(author', content', ts', parents');
    FirstBar(author, Body(content, ts, tail), author', Body(content', ts', tail'));
    BodyInjective(content, ts, parents, content', ts', parents');
  }

  // ── The signed text ─────────────────────────────────────────────────

  /** Lower-case hexadecimal digest of 32 bytes. */
  predicate Hex64(s: string) {
    |s| == 64 && forall i :: 0 <= i < |s| ==> '0' <= s[i] <= '9' || 'a' <= s[i] <= 'f'
  }

  predicate AllHex64(parents: seq<string>) {
    forall i :: 0 <= i < |parents| ==> Hex64(parents[i])
  }

  lemma {:induction false} JoinedShape(parents: seq<string>)
    requires AllHex64(parents) && parents != []
    ensures Plain(Join(parents, ',')) && 64 <= |Join(parents, ',')|
  {
    if |parents| > 1 {
      JoinedShape(parents[1..]);
    }
  }

  lemma JoinedInjective(p: seq<string>, q: seq<string>)
    requires AllHex64(p) && AllHex64(q) && p != [] && q != [] && Join(p, ',') == Join(q, ',')
    ensures p == q
  {
    SplitJoin(p, ',');
    SplitJoin(q, ',');
  }

  /** The last field: the parent list if there is one, else the timestamp. */
  function LastField(ts: i64, parents: seq<string>): string {
    if parents == [] then ShowInt(ts) else Join(parents, ',')
  }

  /** What stands before the last field's bar. */
  function BeforeLast(content: string, ts: i64, parents: seq<string>): string {
    if parents == [] then content else content + "|" + ShowInt(ts)
  }

  lemma PayloadFields(id: string, author: string, content: string, ts: i64, parents: seq<string>)
    ensures SigningPayload(id, author, content, ts, parents)
         == id + "|" + (author + "|" + (BeforeLast(content, ts, parents) + "|" + LastField(ts, parents)))
  {
  }

  /** A timestamp is never mistaken for a parent list: one has at most 20 characters,
      the other at least 64. */
  lemma LastFieldTells(ts: i64, parents: seq<string>)
    requires AllHex64(parents)
    ensures Plain(LastField(ts, parents))
    ensures parents == [] <==> |LastField(ts, parents)| < 64
  {
    NumbersArePlain(ts);
    ShowI64Length(ts);
    if parents != [] {
      JoinedShape(parents);
    }
  }

  /** The signed text is unambiguous when ids are digests. */
  lemma SigningPayloadInjective(
    id: string, author: string, content: string, ts: i64, parents: seq<string>,
    id': string, author': string, content': string, ts': i64, parents': seq<string>)
    requires Hex64(id) && Hex64(id') && Plain(author) && Plain(author') && AllHex64(parents) && AllHex64(parents')
    requires SigningPayload(id, author, content, ts, parents) == SigningPayload(id', author', content', ts', parents')
    ensures id == id' && author == author' && content == content' && ts == ts' && parents == parents'
  {
    PayloadFields(id, author, content, ts, parents);
    PayloadFields(id', author', content', ts', parents');
    var before, before' := BeforeLast(content, ts, parents), BeforeLast(content', ts', parents');
    var last, last' := LastField(ts, parents), LastField(ts', parents');
    FirstBar(id, author + "|" + (before + "|" + last), id', author' + "|" + (before' + "|" + last'));
    FirstBar(author, before + "|" + last, author', before' + "|" + last');
    LastFieldTells(ts, parents);
    LastFieldTells(ts', parents');
    LastBar(before, last, before', last');
    if parents == [] {
      ShowIntInjective(ts, ts');
    } else {
      JoinedInjective(parents, parents');
      ContentAndTime(content, ts, content', ts');
    }
  }

  // ── Cryptography as parameters ──────────────────────────────────────

  /** Hashing, key decoding, signature decoding and strict verification. */
  datatype Crypto = Crypto(
    hash: string -> string,
    decodeKey: string -> Option<seq<byte>>,
    decodeSignature: string -> Option<seq<byte>>,
    verifyStrict: (seq<byte>, string, seq<byte>) -> bool)

  /** An author: a DID and what signing with its secret key gives, encoded as text. */
  datatype Identity = Identity(did: string, sign: string -> string)

  /** Digests are 64 hexadecimal characters; no bar occurs in an accepted DID. */
  ghost predicate Sound(c: Crypto) {
    && (forall s :: Hex64(c.hash(s)))
    && (forall did :: c.decodeKey(did).Some? ==> Plain(did))
  }

  /** Signatures made with the identity's key decode and verify under its DID. */
  ghost predicate SignsFor(c: Crypto, id: Identity) {
    && c.decodeKey(id.did).Some?
    && forall m :: c.decodeSignature(id.sign(m)).Some?
         && |c.decodeSignature(id.sign(m)).value| == 64
         && c.verifyStrict(c.decodeKey(id.did).value, m, c.decodeSignature(id.sign(m)).value)
  }

  // ── Verification ────────────────────────────────────────────────────

  datatype Fault = HashMismatch | BadAuthor | SignatureUndecodable | SignatureLength | SignatureInvalid

  function InputOf(n: Node): string {
    HashInput(n.author, n.content, n.ts, n.parents)
  }

  function PayloadOf(n: Node): string {
    SigningPayload(n.id, n.author, n.content, n.ts, n.parents)
  }

  /** What verification finds wrong with one node, checks in their order. */
  function FaultOf(c: Crypto, n: Node): Option<Fault> {
    if n.id != c.hash(InputOf(n)) then Some(HashMismatch)
    else
      match c.decodeKey(n.author)
      case None => Some(BadAuthor)
      case Some(key) =>
        match c.decodeSignature(n.signature)
        case None => Some(SignatureUndecodable)
        case Some(bytes) =>
          if |bytes| != 64 then Some(SignatureLength)
          else if !c.verifyStrict(key, PayloadOf(n), bytes) then Some(SignatureInvalid)
          else None
  }

  /** A post as verification wants it: the id is the hash, the author a key, and the
      signature 64 bytes that verify the signed text under that key. */
  ghost predicate Genuine(c: Crypto, n: Node) {
    && n.id == c.hash(HashInput(n.author, n.content, n.ts, n.parents))
    && c.decodeKey(n.author).Some?
    && c.decodeSignature(n.signature).Some?
    && |c.decodeSignature(n.signature).value| == 64
    && c.verifyStrict(c.decodeKey(n.author).value, SigningPayload(n.id, n.author, n.content, n.ts, n.parents),
                      c.decodeSignature(n.signature).value)
  }

  /** Each fault is reported exactly if it is there and none that is looked for earlier. */
  ghost predicate IsFirstFault(c: Crypto, n: Node, f: Fault) {
    var hashed := n.id == c.hash(HashInput(n.author, n.content, n.ts, n.parents));
    var key, bytes := c.decodeKey(n.author), c.decodeSignature(n.signature);
    match f
    case HashMismatch => !hashed
    case BadAuthor => hashed && key.None?
    case SignatureUndecodable => hashed && key.Some? && bytes.None?
    case SignatureLength => hashed && key.Some? && bytes.Some? && |bytes.value| != 64
    case SignatureInvalid =>
      && hashed && key.Some? && bytes.Some? && |bytes.value| == 64
      && !c.verifyStrict(key.value, SigningPayload(n.id, n.author, n.content, n.ts, n.parents), bytes.value)
  }

  lemma FaultIsExact(c: Crypto, n: Node)
    ensures FaultOf(c, n).None? <==>
      && n.id == c.hash(HashInput(n.author, n.content, n.ts, n.parents))
      && c.decodeKey(n.author).Some?
      && c.decodeSignature(n.signature).Some?
      && |c.decodeSignature(n.signature).value| == 64
      && c.verifyStrict(c.decodeKey(n.author).value, SigningPayload(n.id, n.author, n.content, n.ts, n.parents),
                        c.decodeSignature(n.signature).value)
    ensures FaultOf(c, n).None? <==> Genuine(c, n)
    ensures forall f :: FaultOf(c, n) == Some(f) <==> IsFirstFault(c, n, f)
  {
  }

  ghost predicate GenuineUpTo(c: Crypto, nodes: seq<Node>, n: nat)
    requires n <= |nodes|
  {
    forall k :: 0 <= k < n ==> Genuine(c, nodes[k])
  }

  lemma AllSoundIsGenuine(c: Crypto, nodes: seq<Node>)
    ensures AllSound(c, nodes) <==> GenuineUpTo(c, nodes, |nodes|)
  {
    forall i | 0 <= i < |nodes|
      ensures FaultOf(c, nodes[i]).None? <==> Genuine(c, nodes[i])
    {
      FaultIsExact(c, nodes[i]);
    }
  }

  lemma OneMoreIsGenuine(c: Crypto, nodes: seq<Node>, i: nat)
    requires i < |nodes| && GenuineUpTo(c, nodes, i)
    ensures GenuineUpTo(c, nodes, i + 1) <==> Genuine(c, nodes[i])
    ensures !Genuine(c, nodes[i]) ==> !GenuineUpTo(c, nodes, |nodes|)
  {
  }

  /** Node i is the first that is not genuine, and f the first thing wrong with it. */
  ghost predicate FirstBad(c: Crypto, nodes: seq<Node>, i: nat, f: Fault) {
    i < |nodes| && IsFirstFault(c, nodes[i], f) && GenuineUpTo(c, nodes, i)
  }

  // ── Forgery ─────────────────────────────────────────────────────────

  /** Under this key the signature verifies one text at most. */
  ghost predicate OneText(c: Crypto, key: seq<byte>, bytes: seq<byte>) {
    forall m, m' :: c.verifyStrict(key, m, bytes) && c.verifyStrict(key, m', bytes) ==> m == m'
  }

  /** Whoever keeps the author and the signature of a genuine post and changes the signed
      text, id, content, time or parents, is rejected: as a hash mismatch or as an invalid
      signature. */
  lemma ForgeryIsRejected(c: Crypto, n: Node, forged: Node)
    requires Genuine(c, n) && OneText(c, c.decodeKey(n.author).value, c.decodeSignature(n.signature).value)
    requires forged.author == n.author && forged.signature == n.signature
    requires SigningPayload(forged.id, forged.author, forged.content, forged.ts, forged.parents)
          != SigningPayload(n.id, n.author, n.content, n.ts, n.parents)
    ensures FaultOf(c, forged) == Some(HashMismatch) || FaultOf(c, forged) == Some(SignatureInvalid)
    ensures !Genuine(c, forged)
  {
    FaultIsExact(c, forged);
    assert c.verifyStrict(c.decodeKey(n.author).value, PayloadOf(n), c.decodeSignature(n.signature).value);
    assert PayloadOf(forged) != PayloadOf(n);
  }

  /** With digests for parents no field can be changed at all. */
  lemma GenuineIsUnforgeable(c: Crypto, n: Node, forged: Node)
    requires Sound(c) && Genuine(c, n) && Genuine(c, forged)
    requires OneText(c, c.decodeKey(n.author).value, c.decodeSignature(n.signature).value)
    requires forged.author == n.author && forged.signature == n.signature
    requires AllHex64(n.parents) && AllHex64(forged.parents)
    ensures forged == n
  {
    if PayloadOf(forged) != PayloadOf(n) {
      ForgeryIsRejected(c, n, forged);
      assert false;
    }
    SigningPayloadInjective(forged.id, forged.author, forged.content, forged.ts, forged.parents,
                            n.id, n.author, n.content, n.ts, n.parents);
  }

  ghost predicate AllSound(c: Crypto, nodes: seq<Node>) {
    forall i :: 0 <= i < |nodes| ==> FaultOf(c, nodes[i]) == None
  }

  // ── Building ────────────────────────────────────────────────────────

  function ParentsFor(nodes: seq<Node>): seq<string> {
    if nodes == [] then [] else [nodes[|nodes| - 1].id]
  }

  function SignedNode(c: Crypto, id: Identity, content: string, ts: i64, parents: seq<string>): Node {
    var nodeId := c.hash(HashInput(id.did, content, ts, parents));
    Node(nodeId, id.did, content, ts, parents, id.sign(SigningPayload(nodeId, id.did, content, ts, parents)))
  }

  class Timeline {
    var nodes: seq<Node>

    constructor ()
      ensures nodes == []
    {
      nodes := [];
    }

    static method Genesis(c: Crypto, id: Identity, content: string, ts: i64) returns (node: Node)
      ensures node == SignedNode(c, id, content, ts, ParentsFor([]))
      ensures node.author == id.did && node.content == content && node.ts == ts && node.parents == []
      ensures node.id == c.hash(HashInput(id.did, content, ts, []))
      ensures node.signature == id.sign(SigningPayload(node.id, id.did, content, ts, []))
    {
      var fed := FeedHasher(id.did, content, ts, []);
      var nodeId := c.hash(fed);
      node := Node(nodeId, id.did, content, ts, [], id.sign(SigningPayload(nodeId, id.did, content, ts, [])));
    }

    method Append(c: Crypto, id: Identity, content: string, ts: i64) returns (node: Node)
      modifies this
      ensures node == SignedNode(c, id, content, ts, ParentsFor(old(nodes)))
      ensures nodes == old(nodes) + [node]
      ensures node.author == id.did && node.content == content && node.ts == ts
      ensures node.parents == if old(nodes) == [] then [] else [old(nodes)[|old(nodes)| - 1].id]
      ensures node.id == c.hash(HashInput(id.did, content, ts, node.parents))
      ensures node.signature == id.sign(SigningPayload(node.id, id.did, content, ts, node.parents))
    {
      var parents := if nodes == [] then [] else [nodes[|nodes| - 1].id];
      var fed := FeedHasher(id.did, content, ts, parents);
      var nodeId := c.hash(fed);
      node := Node(nodeId, id.did, content, ts, parents, id.sign(SigningPayload(nodeId, id.did, content, ts, parents)));
      nodes := nodes + [node];
    }

    /** The loop body: one node's id, author key and signature. */
    static method Check(c: Crypto, node: Node) returns (fault: Option<Fault>)
      ensures fault.None? <==> Genuine(c, node)
      ensures fault.Some? ==> IsFirstFault(c, node, fault.value)
    {
      FaultIsExact(c, node);
      var fed := FeedHasher(node.author, node.content, node.ts, node.parents);
      if node.id != c.hash(fed) {
        return Some(HashMismatch);
      }
      var key := c.decodeKey(node.author);
      if key.None? {
        return Some(BadAuthor);
      }
      var bytes := c.decodeSignature(node.signature);
      if bytes.None? {
        return Some(SignatureUndecodable);
      }
      if |bytes.value| != 64 {
        return Some(SignatureLength);
      }
      if !c.verifyStrict(key.value, PayloadOf(node), bytes.value) {
        return Some(SignatureInvalid);
      }
      return None;
    }

    /** Passes iff every node is genuine; otherwise reports the first bad one, and the first
        thing wrong with it. */
    method Verify(c: Crypto) returns (fault: Option<(nat, Fault)>)
      ensures fault.None? <==> GenuineUpTo(c, nodes, |nodes|)
      ensures fault.Some? ==> FirstBad(c, nodes, fault.value.0, fault.value.1)
    {
      for i := 0 to |nodes|
        invariant GenuineUpTo(c, nodes, i)
      {
        var found := Check(c, nodes[i]);
        OneMoreIsGenuine(c, nodes, i);
        if found.Some? {
          return Some((i, found.value));
        }
      }
      return None;
    }
  }

  /** The shape append builds: each post names exactly the one before it. */
  ghost predicate Linked(nodes: seq<Node>) {
    forall i :: 0 <= i < |nodes| ==> nodes[i].parents == ParentsFor(nodes[..i])
  }

  datatype Post = Post(id: Identity, content: string, ts: i64)

  /** The timeline a series of appends builds from the empty one. */
  function Built(c: Crypto, posts: seq<Post>): seq<Node> {
    if posts == [] then []
    else
      var before, p := Built(c, posts[..|posts| - 1]), posts[|posts| - 1];
      before + [SignedNode(c, p.id, p.content, p.ts, ParentsFor(before))]
  }

  lemma SignedNodeIsSound(c: Crypto, id: Identity, content: string, ts: i64, parents: seq<string>)
    requires SignsFor(c, id)
    ensures FaultOf(c, SignedNode(c, id, content, ts, parents)) == None
  {
    var n := SignedNode(c, id, content, ts, parents);
    assert n.signature == id.sign(PayloadOf(n));
  }

  lemma AppendKeepsLinks(nodes: seq<Node>, n: Node)
    requires Linked(nodes) && n.parents == ParentsFor(nodes)
    ensures Linked(nodes + [n])
  {
    var longer := nodes + [n];
    forall i | 0 <= i < |longer|
      ensures longer[i].parents == ParentsFor(longer[..i])
    {
      assert longer[..i] == nodes[..i];
      assert i == |nodes| ==> nodes[..i] == nodes;
    }
  }

  /** Any run of appends verifies and stays linked. */
  lemma {:induction false} BuiltVerifies(c: Crypto, posts: seq<Post>)
    requires forall i :: 0 <= i < |posts| ==> SignsFor(c, posts[i].id)
    ensures |Built(c, posts)| == |posts|
    ensures AllSound(c, Built(c, posts)) && Linked(Built(c, posts))
  {
    if posts != [] {
      var before, p := Built(c, posts[..|posts| - 1]), posts[|posts| - 1];
      BuiltVerifies(c, posts[..|posts| - 1]);
      SignedNodeIsSound(c, p.id, p.content, p.ts, ParentsFor(before));
      AppendKeepsLinks(before, SignedNode(c, p.id, p.content, p.ts, ParentsFor(before)));
    }
  }

  // ── Same tip, same history ──────────────────────────────────────────

  /** Ids are digests of what they name; authors contain no bar. */
  ghost predicate HashChecked(c: Crypto, nodes: seq<Node>) {
    forall i :: 0 <= i < |nodes| ==> nodes[i].id == c.hash(InputOf(nodes[i])) && Plain(nodes[i].author)
  }

  /** What the author posted: everything but the id and the signature over it. */
  datatype Core = Core(author: string, content: string, ts: i64, parents: seq<string>)

  function CoreOf(n: Node): Core {
    Core(n.author, n.content, n.ts, n.parents)
  }

  function Cores(nodes: seq<Node>): seq<Core> {
    seq(|nodes|, i requires 0 <= i < |nodes| => CoreOf(nodes[i]))
  }

  function Ids(nodes: seq<Node>): seq<string> {
    seq(|nodes|, i requires 0 <= i < |nodes| => nodes[i].id)
  }

  /** The hashed texts of a timeline. */
  function Texts(nodes: seq<Node>): seq<string> {
    seq(|nodes|, i requires 0 <= i < |nodes| => InputOf(nodes[i]))
  }

  /** Agreement on every author, content, ts and parents, and on the length. */
  ghost predicate SameHistory(a: seq<Node>, b: seq<Node>) {
    Cores(a) == Cores(b)
  }

  lemma DigestIsSeparable(s: string)
    requires Hex64(s)
    ensures '|' !in s && ',' !in s
  {
  }

  ghost predicate DigestIds(nodes: seq<Node>) {
    forall i :: 0 <= i < |nodes| ==> Hex64(nodes[i].id)
  }

  lemma CheckedIdsAreDigests(c: Crypto, nodes: seq<Node>)
    requires Sound(c) && HashChecked(c, nodes)
    ensures DigestIds(nodes)
  {
  }

  lemma LinkedParentsAreSeparable(nodes: seq<Node>, i: nat)
    requires DigestIds(nodes) && Linked(nodes) && i < |nodes|
    ensures Separable(nodes[i].parents)
  {
    assert nodes[i].parents == ParentsFor(nodes[..i]);
    if i > 0 {
      DigestIsSeparable(nodes[i - 1].id);
    }
  }

  lemma SameInputSamePost(a: seq<Node>, b: seq<Node>, i: nat, j: nat)
    requires DigestIds(a) && DigestIds(b) && Linked(a) && Linked(b)
    requires i < |a| && j < |b| && Plain(a[i].author) && Plain(b[j].author) && InputOf(a[i]) == InputOf(b[j])
    ensures CoreOf(a[i]) == CoreOf(b[j])
  {
    LinkedParentsAreSeparable(a, i);
    LinkedParentsAreSeparable(b, j);
    HashInputInjective(a[i].author, a[i].content, a[i].ts, a[i].parents, b[j].author, b[j].content, b[j].ts,
      b[j].parents);
  }

  /** Entries i and j have different texts under one id. */
  ghost predicate Clash<I, T>(ids: seq<I>, ids': seq<I>, texts: seq<T>, texts': seq<T>)
    requires |ids| == |texts| && |ids'| == |texts'|
  {
    exists i, j :: 0 <= i < |texts| && 0 <= j < |texts'| && texts[i] != texts'[j] && ids[i] == ids'[j]
  }

  /** Equal texts mean equal posts. */
  ghost predicate Readable<T, C>(texts: seq<T>, texts': seq<T>, cores: seq<C>, cores': seq<C>)
    requires |texts| == |cores| && |texts'| == |cores'|
  {
    forall i, j :: 0 <= i < |texts| && 0 <= j < |texts'| && texts[i] == texts'[j] ==> cores[i] == cores'[j]
  }

  /** Equal posts are both first, or follow posts with one id. */
  ghost predicate Chained<I, C>(ids: seq<I>, ids': seq<I>, cores: seq<C>, cores': seq<C>)
    requires |ids| == |cores| && |ids'| == |cores'|
  {
    forall k, l :: 0 <= k < |cores| && 0 <= l < |cores'| && cores[k] == cores'[l] ==>
      (k == 0 <==> l == 0) && (k > 0 && l > 0 ==> ids[k - 1] == ids'[l - 1])
  }

  ghost predicate Comparable<I, T, C>(ids: seq<I>, ids': seq<I>, texts: seq<T>, texts': seq<T>, cores: seq<C>,
      cores': seq<C>) {
    && |ids| == |texts| == |cores| && |ids'| == |texts'| == |cores'|
    && Readable(texts, texts', cores, cores')
    && Chained(ids, ids', cores, cores')
  }

  /** The walk back from entries k and l with one id. */
  lemma {:induction false} WalkBack<I, T, C>(ids: seq<I>, ids': seq<I>, texts: seq<T>, texts': seq<T>, cores: seq<C>,
      cores': seq<C>, k: nat, l: nat)
    requires Comparable(ids, ids', texts, texts', cores, cores')
    requires k < |ids| && l < |ids'| && ids[k] == ids'[l]
    ensures (k == l && forall i :: 0 <= i <= k ==> cores[i] == cores'[i]) || Clash(ids, ids', texts, texts')
    decreases k
  {
    if texts[k] == texts'[l] {
      assert cores[k] == cores'[l];
      if k > 0 {
        WalkBack(ids, ids', texts, texts', cores, cores', k - 1, l - 1);
      }
    }
  }

  lemma LinkedIsChained(a: seq<Node>, b: seq<Node>)
    requires Linked(a) && Linked(b)
    ensures Chained(Ids(a), Ids(b), Cores(a), Cores(b))
  {
    forall k, l | 0 <= k < |a| && 0 <= l < |b| && Cores(a)[k] == Cores(b)[l]
      ensures (k == 0 <==> l == 0) && (k > 0 && l > 0 ==> Ids(a)[k - 1] == Ids(b)[l - 1])
    {
      assert a[k].parents == ParentsFor(a[..k]) && b[l].parents == ParentsFor(b[..l]);
      assert Cores(a)[k].parents == Cores(b)[l].parents;
      assert k > 0 ==> a[k].parents[0] == a[k - 1].id;
      assert l > 0 ==> b[l].parents[0] == b[l - 1].id;
    }
  }

  lemma CheckedIsReadable(c: Crypto, a: seq<Node>, b: seq<Node>)
    requires Sound(c) && HashChecked(c, a) && HashChecked(c, b) && Linked(a) && Linked(b)
    ensures Readable(Texts(a), Texts(b), Cores(a), Cores(b))
  {
    CheckedIdsAreDigests(c, a);
    CheckedIdsAreDigests(c, b);
    forall i, j | 0 <= i < |a| && 0 <= j < |b| && Texts(a)[i] == Texts(b)[j]
      ensures Cores(a)[i] == Cores(b)[j]
    {
      SameInputSamePost(a, b, i, j);
    }
  }

  /** From the last entries on: everything agrees, or some ids clash. */
  lemma WholeWalk<I, T, C>(ids: seq<I>, ids': seq<I>, texts: seq<T>, texts': seq<T>, cores: seq<C>, cores': seq<C>)
    requires Comparable(ids, ids', texts, texts', cores, cores')
    requires ids != [] && ids' != [] && ids[|ids| - 1] == ids'[|ids'| - 1]
    ensures cores == cores' || Clash(ids, ids', texts, texts')
  {
    WalkBack(ids, ids', texts, texts', cores, cores', |ids| - 1, |ids'| - 1);
  }

  lemma TimelinesAreComparable(c: Crypto, a: seq<Node>, b: seq<Node>)
    requires Sound(c) && HashChecked(c, a) && HashChecked(c, b) && Linked(a) && Linked(b)
    ensures Comparable(Ids(a), Ids(b), Texts(a), Texts(b), Cores(a), Cores(b))
  {
    CheckedIsReadable(c, a, b);
    LinkedIsChained(a, b);
  }

  lemma TipIsLastId(nodes: seq<Node>)
    requires nodes != []
    ensures Ids(nodes) != [] && Ids(nodes)[|Ids(nodes)| - 1] == nodes[|nodes| - 1].id
  {
  }

  /** The id of the last post determines the whole history, whatever the lengths, or
      the two timelines themselves contain two different texts with one digest. */
  lemma SameTipSameHistory(c: Crypto, a: seq<Node>, b: seq<Node>)
    requires Sound(c) && HashChecked(c, a) && HashChecked(c, b) && Linked(a) && Linked(b)
    requires a != [] && b != [] && a[|a| - 1].id == b[|b| - 1].id
    ensures SameHistory(a, b) || Clash(Ids(a), Ids(b), Texts(a), Texts(b))
  {
    TimelinesAreComparable(c, a, b);
    TipIsLastId(a);
    TipIsLastId(b);
    WholeWalk(Ids(a), Ids(b), Texts(a), Texts(b), Cores(a), Cores(b));
  }

  lemma VerifiedIsHashChecked(c: Crypto, nodes: seq<Node>)
    requires Sound(c) && AllSound(c, nodes)
    ensures HashChecked(c, nodes)
  {
    assert forall i :: 0 <= i < |nodes| ==> FaultOf(c, nodes[i]) == None;
  }

  /** Equal posts have equal ids, so a linked history has only linked copies. */
  lemma SameHistoryIsLinked(c: Crypto, a: seq<Node>, b: seq<Node>)
    requires HashChecked(c, a) && HashChecked(c, b) && Linked(a) && SameHistory(a, b)
    ensures Linked(b)
  {
    assert |a| == |Cores(a)| == |Cores(b)| == |b|;
    forall i | 0 <= i < |b|
      ensures CoreOf(a[i]) == CoreOf(b[i]) && a[i].id == b[i].id
    {
      assert Cores(a)[i] == Cores(b)[i];
    }
    forall i | 0 <= i < |b|
      ensures b[i].parents == ParentsFor(b[..i])
    {
      assert a[i].parents == ParentsFor(a[..i]);
      assert i > 0 ==> a[i - 1].id == b[i - 1].id;
    }
  }

  /** A linked timeline that verifies against any other that verifies, with one tip id:
      they have one history exactly if the other is linked too, unless some ids clash. */
  lemma VerifiedTipDeterminesHistory(c: Crypto, a: seq<Node>, b: seq<Node>)
    requires Sound(c) && AllSound(c, a) && AllSound(c, b) && Linked(a)
    requires a != [] && b != [] && a[|a| - 1].id == b[|b| - 1].id
    ensures (SameHistory(a, b) <==> Linked(b)) || Clash(Ids(a), Ids(b), Texts(a), Texts(b))
    ensures SameHistory(a, b) ==> Linked(b)
  {
    VerifiedIsHashChecked(c, a);
    VerifiedIsHashChecked(c, b);
    if Linked(b) {
      SameTipSameHistory(c, a, b);
    }
    if SameHistory(a, b) {
      SameHistoryIsLinked(c, a, b);
    }
  }
}
