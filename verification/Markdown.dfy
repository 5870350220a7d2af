/** Translation of simple Markdown to terminal escape sequences, for the view of a
    published service description. */
module Markdown {
  import opened Base

  const ESC := '\U{1B}'
  const BOLD := "\U{1B}[1m"
  const ITALIC := "\U{1B}[3m"
  const CODE := "\U{1B}[7m"
  const HEADER := "\U{1B}[1;4m"
  const DIM := "\U{1B}[2m"
  const RESET := "\U{1B}[0m"
  const BULLET := "  \U{2022}"
  const LINE: string := Repeated('\U{2500}', 30)

  function Repeated(c: char, n: nat): (s: string)
    ensures |s| == n && forall i :: 0 <= i < n ==> s[i] == c
  {
    seq(n, _ => c)
  }

  /** One piece of input, as the scanner recognises it. */
  datatype Token =
    | Header(text: string)
    | Bold(text: string)
    | LoneStars
    | Italic(text: string)
    | Code(text: string)
    | Bullet
    | Rule(dashes: nat)
    | Plain(c: char)

  /** The input a token stands for. */
  function Source(t: Token): string {
    match t
    case Header(text) => text
    case Bold(text) => "**" + text + "**"
    case LoneStars => "**"
    case Italic(text) => "*" + text + "*"
    case Code(text) => "`" + text + "`"
    case Bullet => "-"
    case Rule(n) => Repeated('-', n)
    case Plain(c) => [c]
  }

  /** The output a token is translated to. */
  function Ansi(t: Token): string {
    match t
    case Header(text) => HEADER + text + RESET
    case Bold(text) => BOLD + text + RESET
    case LoneStars => "**"
    case Italic(text) => ITALIC + text + RESET
    case Code(text) => CODE + text + RESET
    case Bullet => BULLET
    case Rule(_) => DIM + LINE + RESET
    case Plain(c) => [c]
  }

  // ── Recognising a token ─────────────────────────────────────────────

  predicate LineStart(text: string, i: nat)
    requires i < |text|
  {
    i == 0 || text[i - 1] == '\n'
  }

  predicate Stars(text: string, i: nat) {
    i + 1 < |text| && text[i] == '*' && text[i + 1] == '*'
  }

  /** First position of c at or after from. */
  function Find(text: string, c: char, from: nat): (k: Option<nat>)
    requires from <= |text|
    ensures k.Some? ==> from <= k.value < |text| && text[k.value] == c
    decreases |text| - from
  {
    if from == |text| then None
    else if text[from] == c then Some(from)
    else Find(text, c, from + 1)
  }

  /** First position of two stars at or after from. */
  function FindStars(text: string, from: nat): (k: Option<nat>)
    requires from <= |text|
    ensures k.Some? ==> from <= k.value && Stars(text, k.value)
    decreases |text| - from
  {
    if from == |text| then None
    else if Stars(text, from) then Some(from)
    else FindStars(text, from + 1)
  }

  /** End of the run of dashes around from. */
  function DashEnd(text: string, from: nat): (k: nat)
    requires from <= |text|
    ensures from <= k <= |text|
    decreases |text| - from
  {
    if from < |text| && text[from] == '-' then DashEnd(text, from + 1) else from
  }

  lemma {:induction false} FindIsFirst(text: string, c: char, from: nat)
    requires from <= |text|
    ensures var k := Find(text, c, from);
      forall j :: from <= j < (if k.Some? then k.value else |text|) ==> text[j] != c
    decreases |text| - from
  {
    if from < |text| && text[from] != c {
      FindIsFirst(text, c, from + 1);
    }
  }

  lemma {:induction false} FindStarsIsFirst(text: string, from: nat)
    requires from <= |text|
    ensures var k := FindStars(text, from);
      forall j :: from <= j < (if k.Some? then k.value else |text|) ==> !Stars(text, j)
    decreases |text| - from
  {
    if from < |text| && !Stars(text, from) {
      FindStarsIsFirst(text, from + 1);
    }
  }

  lemma {:induction false} DashesToTheEnd(text: string, from: nat)
    requires from <= |text|
    ensures var k := DashEnd(text, from);
      && (forall j :: from <= j < k ==> text[j] == '-')
      && (k < |text| ==> text[k] != '-')
    decreases |text| - from
  {
    if from < |text| && text[from] == '-' {
      DashesToTheEnd(text, from + 1);
    }
  }

  predicate RuleAt(text: string, i: nat)
    requires i < |text|
  {
    text[i] == '-' && i + 2 < |text| && text[i + 1] == '-' && text[i + 2] == '-' && LineStart(text, i)
  }

  /** The position of the star that closes an italic opened at i, if it qualifies. */
  function ItalicEnd(text: string, i: nat): Option<nat>
    requires i < |text|
  {
    if text[i] != '*' || Stars(text, i) || (i > 0 && text[i - 1] == '*') then None
    else
      var k := Find(text, '*', i + 1);
      if k.Some? && k.value > i + 1 && (k.value + 1 >= |text| || text[k.value + 1] != '*') then k else None
  }

  function CodeEnd(text: string, i: nat): Option<nat>
    requires i < |text|
  {
    if text[i] == '`' then Find(text, '`', i + 1) else None
  }

  /** The token at position i, branch by branch. */
  function TokenAt(text: string, i: nat): Token
    requires i < |text|
  {
    var c := text[i];
    if c == '#' && LineStart(text, i) then
      Header(text[i..Find(text, '\n', i).GetOr(|text|)])
    else if Stars(text, i) then
      var end := FindStars(text, i + 2);
      if end.Some? then Bold(text[i + 2..end.value]) else LoneStars
    else if ItalicEnd(text, i).Some? then
      Italic(text[i + 1..ItalicEnd(text, i).value])
    else if CodeEnd(text, i).Some? then
      Code(text[i + 1..CodeEnd(text, i).value])
    else if c == '-' && LineStart(text, i) && i + 1 < |text| && text[i + 1] == ' ' then
      Bullet
    else if RuleAt(text, i) then
      Rule(DashEnd(text, i + 3) - i)
    else
      Plain(c)
  }

  lemma WrappedSlice(text: string, i: nat, open: string, j: nat, close: string)
    requires i + |open| <= j && j + |close| <= |text|
    requires text[i..i + |open|] == open && text[j..j + |close|] == close
    ensures text[i..j + |close|] == open + text[i + |open|..j] + close
  {
  }

  lemma RuleIsSlice(text: string, i: nat)
    requires i < |text| && RuleAt(text, i)
    ensures var end := DashEnd(text, i + 3); text[i..end] == Repeated('-', end - i)
  {
    var end := DashEnd(text, i + 3);
    DashesToTheEnd(text, i + 3);
    forall k | 0 <= k < end - i
      ensures text[i..end][k] == '-'
    {
      assert text[i..end][k] == text[i + k];
    }
  }

  /** source stands at position i. */
  predicate StandsAt(text: string, i: nat, source: string) {
    source != [] && i + |source| <= |text| && text[i..i + |source|] == source
  }

  lemma WrappedStands(text: string, i: nat, open: string, j: nat, close: string)
    requires open != [] && i + |open| <= j && j + |close| <= |text|
    requires text[i..i + |open|] == open && text[j..j + |close|] == close
    ensures StandsAt(text, i, open + text[i + |open|..j] + close)
  {
    WrappedSlice(text, i, open, j, close);
  }

  lemma ItalicStands(text: string, i: nat)
    requires i < |text| && ItalicEnd(text, i).Some?
    ensures StandsAt(text, i, "*" + text[i + 1..ItalicEnd(text, i).value] + "*")
  {
    WrappedStands(text, i, "*", ItalicEnd(text, i).value, "*");
  }

  lemma CodeStands(text: string, i: nat)
    requires i < |text| && CodeEnd(text, i).Some?
    ensures StandsAt(text, i, "`" + text[i + 1..CodeEnd(text, i).value] + "`")
  {
    WrappedStands(text, i, "`", CodeEnd(text, i).value, "`");
  }

  lemma BoldStands(text: string, i: nat)
    requires Stars(text, i) && FindStars(text, i + 2).Some?
    ensures StandsAt(text, i, "**" + text[i + 2..FindStars(text, i + 2).value] + "**")
  {
    WrappedStands(text, i, "**", FindStars(text, i + 2).value, "**");
  }

  lemma StyledIsSlice(text: string, i: nat)
    requires i < |text|
    ensures var t := TokenAt(text, i); t.Bold? || t.Italic? || t.Code? ==> StandsAt(text, i, Source(t))
  {
    if Stars(text, i) && FindStars(text, i + 2).Some? {
      BoldStands(text, i);
    }
    if ItalicEnd(text, i).Some? {
      ItalicStands(text, i);
    }
    if CodeEnd(text, i).Some? {
      CodeStands(text, i);
    }
  }

  lemma UnstyledIsSlice(text: string, i: nat)
    requires i < |text|
    ensures var t := TokenAt(text, i); !t.Bold? && !t.Italic? && !t.Code? ==> StandsAt(text, i, Source(t))
  {
    var t := TokenAt(text, i);
    if t.Rule? {
      RuleIsSlice(text, i);
    }
  }

  /** A token is a non-empty slice of the input, right where it was found. */
  lemma TokenIsSlice(text: string, i: nat)
    requires i < |text|
    ensures StandsAt(text, i, Source(TokenAt(text, i)))
  {
    StyledIsSlice(text, i);
    UnstyledIsSlice(text, i);
  }

  /** Where the scanner goes on after the token at i. */
  function NextAt(text: string, i: nat): (next: nat)
    requires i < |text|
    ensures i < next <= |text|
  {
    TokenIsSlice(text, i);
    i + |Source(TokenAt(text, i))|
  }

  function Tokens(text: string, i: nat): seq<Token>
    requires i <= |text|
    decreases |text| - i
  {
    if i == |text| then [] else [TokenAt(text, i)] + Tokens(text, NextAt(text, i))
  }

  function Sources(tokens: seq<Token>): string {
    if tokens == [] then "" else Source(tokens[0]) + Sources(tokens[1..])
  }

  function Translated(tokens: seq<Token>): string {
    if tokens == [] then "" else Ansi(tokens[0]) + Translated(tokens[1..])
  }

  /** The translation of a whole text. */
  function Rendered(text: string): string {
    Translated(Tokens(text, 0))
  }

  lemma FirstToken(text: string, i: nat, t: Token, next: nat, left: seq<Token>, rest: seq<Token>)
    requires i < |text| && t == TokenAt(text, i) && next == NextAt(text, i)
    requires left == Tokens(text, i) && rest == Tokens(text, next)
    ensures left == [t] + rest
  {
  }

  /** Translating the first of the tokens that are left. */
  lemma TranslateFirst(before: string, t: Token, rest: seq<Token>, left: seq<Token>)
    requires left == [t] + rest
    ensures before + Translated(left) == before + Ansi(t) + Translated(rest)
  {
    assert left[1..] == rest;
    assert before + (Ansi(t) + Translated(rest)) == before + Ansi(t) + Translated(rest);
  }

  // ── The scanner ─────────────────────────────────────────────────────

  method RenderMarkdown(text: string) returns (out: string)
    ensures out == Rendered(text)
  {
    out := "";
    var i: nat := 0;
    ghost var left, whole := Tokens(text, 0), Rendered(text);
    assert out + Translated(left) == whole;
    while i < |text|
      invariant i <= |text| && left == Tokens(text, i)
      invariant out + Translated(left) == whole
    {
      ghost var t, rest;
      var piece;
      piece, i, t, rest := ScanOne(text, i, left);
      TranslateFirst(out, t, rest, left);
      out := out + piece;
      left := rest;
    }
    assert out + "" == out;
  }

  /** The loop body: one branch of the scanner, and what is left after it. */
  method ScanOne(text: string, i: nat, ghost left: seq<Token>)
    returns (piece: string, next: nat, ghost t: Token, ghost rest: seq<Token>)
    requires i < |text| && left == Tokens(text, i)
    ensures i < next <= |text| && rest == Tokens(text, next)
    ensures left == [t] + rest && piece == Ansi(t)
  {
    t := TokenAt(text, i);
    piece, next := ScanBranch(text, i);
    rest := Tokens(text, next);
    FirstToken(text, i, t, next, left, rest);
  }

  method ScanBranch(text: string, i: nat) returns (piece: string, next: nat)
    requires i < |text|
    ensures piece == Ansi(TokenAt(text, i))
    ensures next == NextAt(text, i)
  {
    TokenIsSlice(text, i);
    var c := text[i];
    if c == '#' && LineStart(text, i) {
      var end := Find(text, '\n', i).GetOr(|text|);
      return HEADER + text[i..end] + RESET, end;
    }
    if Stars(text, i) {
      var end := FindStars(text, i + 2);
      if end.Some? {
        return BOLD + text[i + 2..end.value] + RESET, end.value + 2;
      } else {
        return "**", i + 2;
      }
    }
    if c == '*' && (i + 1 >= |text| || text[i + 1] != '*') && (i == 0 || text[i - 1] != '*') {
      var end := Find(text, '*', i + 1);
      if end.Some? && end.value > i + 1 && (end.value + 1 >= |text| || text[end.value + 1] != '*') {
        return ITALIC + text[i + 1..end.value] + RESET, end.value + 1;
      }
    }
    if c == '`' {
      var end := Find(text, '`', i + 1);
      if end.Some? {
        return CODE + text[i + 1..end.value] + RESET, end.value + 1;
      }
    }
    piece, next := ScanDash(text, i);
  }

  /** The last branches: list bullets, rules, and anything else as it is. */
  method ScanDash(text: string, i: nat) returns (piece: string, next: nat)
    requires i < |text|
    requires var t := TokenAt(text, i); t.Bullet? || t.Rule? || t.Plain?
    ensures piece == Ansi(TokenAt(text, i))
    ensures next == NextAt(text, i)
  {
    var c := text[i];
    if c == '-' && LineStart(text, i) && i + 1 < |text| && text[i + 1] == ' ' {
      return BULLET, i + 1;
    }
    if c == '-' && i + 2 < |text| && text[i + 1] == '-' && text[i + 2] == '-' && LineStart(text, i) {
      next := i + 3;
      while next < |text| && text[next] == '-'
        invariant i + 3 <= next <= |text|
        invariant DashEnd(text, next) == DashEnd(text, i + 3)
      {
        next := next + 1;
      }
      return DIM + LINE + RESET, next;
    }
    return [c], i + 1;
  }

  // ── Lossless ────────────────────────────────────────────────────────

  lemma SliceThenRest(text: string, i: nat)
    requires i < |text|
    ensures text[i..] == Source(TokenAt(text, i)) + text[NextAt(text, i)..]
  {
    TokenIsSlice(text, i);
    var source := Source(TokenAt(text, i));
    assert text[i..] == text[i..i + |source|] + text[i + |source|..];
  }

  lemma SourcesFirst(t: Token, rest: seq<Token>, left: seq<Token>, tail: string)
    requires left == [t] + rest && Sources(rest) == tail
    ensures Sources(left) == Source(t) + tail
  {
    assert left[1..] == rest;
  }

  /** The slices the scanner consumes, in order, are the whole input. */
  lemma {:induction false} ScanIsLossless(text: string, i: nat)
    requires i <= |text|
    ensures Sources(Tokens(text, i)) == text[i..]
    decreases |text| - i
  {
    if i < |text| {
      var t, next := TokenAt(text, i), NextAt(text, i);
      var left, rest := Tokens(text, i), Tokens(text, next);
      FirstToken(text, i, t, next, left, rest);
      ScanIsLossless(text, next);
      SourcesFirst(t, rest, left, text[next..]);
      SliceThenRest(text, i);
    }
  }

  predicate Unmarked(c: char) {
    c != '#' && c != '*' && c != '`' && c != '-'
  }

  /** Text without the four marker characters comes out unchanged. */
  lemma UnmarkedIsUnchanged(text: string)
    requires forall j :: 0 <= j < |text| ==> Unmarked(text[j])
    ensures Rendered(text) == text
  {
    BareTail(text, 0);
    assert text[0..] == text;
  }

  // ── Which token, said without the search ────────────────────────────

  ghost predicate ClosesItalic(text: string, i: nat, k: nat) {
    && i + 1 < k < |text| && text[k] == '*'
    && (forall j :: i < j < k ==> text[j] != '*')
    && (k + 1 < |text| ==> text[k + 1] != '*')
  }

  /** When each style applies: headers, bullets and rules at line starts only; bold up
      to the next double star; italic between single stars; code up to the next tick. */
  lemma TokenKinds(text: string, i: nat)
    requires i < |text|
    ensures var t, c := TokenAt(text, i), text[i];
      && (t.Header? <==> c == '#' && LineStart(text, i))
      && (t.Bold? <==> Stars(text, i) && exists k :: i + 2 <= k && Stars(text, k))
      && (t.LoneStars? <==> Stars(text, i) && forall k :: i + 2 <= k ==> !Stars(text, k))
      && (t.Italic? <==>
            && c == '*' && !Stars(text, i) && (i == 0 || text[i - 1] != '*')
            && exists k: nat :: ClosesItalic(text, i, k))
      && (t.Code? <==> c == '`' && exists k :: i < k < |text| && text[k] == '`')
      && (t.Bullet? <==> LineStart(text, i) && "- " <= text[i..])
      && (t.Rule? <==> LineStart(text, i) && "---" <= text[i..])
  {
    ItalicEndIsClosing(text, i);
    FindIsFirst(text, '`', i + 1);
    var c := text[i];
    if Stars(text, i) {
      FindStarsIsFirst(text, i + 2);
    }
    if c == '-' {
      assert "- " <= text[i..] <==> i + 1 < |text| && text[i + 1] == ' ';
      assert "---" <= text[i..] <==> i + 2 < |text| && text[i + 1] == '-' && text[i + 2] == '-';
    }
  }

  lemma ItalicEndIsClosing(text: string, i: nat)
    requires i < |text|
    ensures var may := text[i] == '*' && !Stars(text, i) && (i == 0 || text[i - 1] != '*');
      && (ItalicEnd(text, i).Some? ==> may && ClosesItalic(text, i, ItalicEnd(text, i).value))
      && forall k: nat :: may && ClosesItalic(text, i, k) ==> ItalicEnd(text, i) == Some(k)
  {
    FindIsFirst(text, '*', i + 1);
  }

  lemma StarsInside(text: string, from: nat, end: nat, k: nat)
    requires from <= end <= |text|
    ensures Stars(text[from..end], k) ==> from + k < end && Stars(text, from + k)
  {
    var inner := text[from..end];
    assert k + 1 < |inner| ==> inner[k] == text[from + k] && inner[k + 1] == text[from + k + 1];
  }

  lemma BoldHasNoStars(text: string, i: nat)
    requires i < |text| && TokenAt(text, i).Bold?
    ensures forall k :: 0 <= k ==> !Stars(TokenAt(text, i).text, k)
  {
    var end := FindStars(text, i + 2).value;
    FindStarsIsFirst(text, i + 2);
    var inner := text[i + 2..end];
    assert TokenAt(text, i).text == inner;
    forall k | 0 <= k
      ensures !Stars(inner, k)
    {
      StarsInside(text, i + 2, end, k);
    }
  }

  /** What a token contains: styled text never contains its own closing marker. */
  lemma TokenExtents(text: string, i: nat)
    requires i < |text|
    ensures match TokenAt(text, i)
      case Header(s) => '\n' !in s
      case Bold(s) => forall k :: 0 <= k ==> !Stars(s, k)
      case Italic(s) => s != [] && '*' !in s
      case Code(s) => '`' !in s
      case Rule(n) => 3 <= n
      case _ => true
  {
    match TokenAt(text, i)
    case Header(_) => FindIsFirst(text, '\n', i);
    case Bold(_) => BoldHasNoStars(text, i);
    case Italic(_) => FindIsFirst(text, '*', i + 1);
    case Code(_) => FindIsFirst(text, '`', i + 1);
    case _ =>
  }

  /** What follows a token: a header ends at a line end, a rule takes all its dashes. */
  lemma TokenEnds(text: string, i: nat)
    requires i < |text| && NextAt(text, i) < |text|
    ensures TokenAt(text, i).Header? ==> text[NextAt(text, i)] == '\n'
    ensures TokenAt(text, i).Rule? ==> text[NextAt(text, i)] != '-'
  {
    if TokenAt(text, i).Rule? {
      DashesToTheEnd(text, i + 3);
    }
  }

  // ── The output, written out ─────────────────────────────────────────

  lemma {:induction false} FindsAt(text: string, c: char, from: nat, k: nat)
    requires from <= k < |text| && text[k] == c && c !in text[from..k]
    ensures Find(text, c, from) == Some(k)
    decreases k - from
  {
    if from < k {
      assert text[from..k] == [text[from]] + text[from + 1..k];
      FindsAt(text, c, from + 1, k);
    }
  }

  lemma {:induction false} FindsNone(text: string, c: char, from: nat)
    requires from <= |text| && c !in text[from..]
    ensures Find(text, c, from) == None
    decreases |text| - from
  {
    if from < |text| {
      assert text[from..] == [text[from]] + text[from + 1..];
      FindsNone(text, c, from + 1);
    }
  }

  lemma {:induction false} FindsStarsAt(text: string, from: nat, k: nat)
    requires from <= k && Stars(text, k) && forall j :: from <= j < k ==> !Stars(text, j)
    ensures FindStars(text, from) == Some(k)
    decreases k - from
  {
    if from < k {
      FindsStarsAt(text, from + 1, k);
    }
  }

  lemma {:induction false} FindsNoStars(text: string, from: nat)
    requires from <= |text| && forall j :: from <= j ==> !Stars(text, j)
    ensures FindStars(text, from) == None
    decreases |text| - from
  {
    if from < |text| {
      FindsNoStars(text, from + 1);
    }
  }

  lemma {:induction false} DashesEndAt(text: string, from: nat, k: nat)
    requires from <= k <= |text| && (forall j :: from <= j < k ==> text[j] == '-') && (k < |text| ==> text[k] != '-')
    ensures DashEnd(text, from) == k
    decreases k - from
  {
    if from < k {
      DashesEndAt(text, from + 1, k);
    }
  }

  /** What the scanner puts out from position i on: a piece, and what follows the token. */
  lemma OutputFirst(text: string, i: nat)
    requires i < |text|
    ensures Translated(Tokens(text, i)) == Ansi(TokenAt(text, i)) + Translated(Tokens(text, NextAt(text, i)))
  {
    var left, rest := Tokens(text, i), Tokens(text, NextAt(text, i));
    FirstToken(text, i, TokenAt(text, i), NextAt(text, i), left, rest);
    assert left[1..] == rest;
  }

  /** The sequences of the styles. */
  lemma StylesWrittenOut(s: string)
    ensures Ansi(Header(s)) == "\U{1B}[1;4m" + s + "\U{1B}[0m"
    ensures Ansi(Bold(s)) == "\U{1B}[1m" + s + "\U{1B}[0m"
    ensures Ansi(Italic(s)) == "\U{1B}[3m" + s + "\U{1B}[0m"
    ensures Ansi(Code(s)) == "\U{1B}[7m" + s + "\U{1B}[0m"
  {
  }

  // What is put out for each form, wherever in a text the scanner meets it.

  /** A number sign at the start of a line, up to the end of the line. */
  lemma HeaderPiece(text: string, i: nat, end: nat, piece: string)
    requires i < end <= |text| && text[i] == '#' && (i == 0 || text[i - 1] == '\n')
    requires '\n' !in text[i..end] && (end < |text| ==> text[end] == '\n')
    requires piece == "\U{1B}[1;4m" + text[i..end] + "\U{1B}[0m"
    ensures TokenAt(text, i) == Header(text[i..end]) && NextAt(text, i) == end && Ansi(TokenAt(text, i)) == piece
  {
    if end < |text| {
      FindsAt(text, '\n', i, end);
    } else {
      assert text[i..end] == text[i..];
      FindsNone(text, '\n', i);
    }
    StylesWrittenOut(text[i..end]);
  }

  lemma BoldToken(text: string, i: nat, end: nat)
    requires Stars(text, i) && i + 2 <= end && FindStars(text, i + 2) == Some(end)
    ensures TokenAt(text, i) == Bold(text[i + 2..end]) && NextAt(text, i) == end + 2
  {
  }

  lemma CodeToken(text: string, i: nat, end: nat)
    requires i < end < |text| && text[i] == '`' && Find(text, '`', i + 1) == Some(end)
    ensures TokenAt(text, i) == Code(text[i + 1..end]) && NextAt(text, i) == end + 1
  {
  }

  lemma ItalicToken(text: string, i: nat, end: nat)
    requires i + 1 < end < |text| && ItalicEnd(text, i) == Some(end)
    ensures TokenAt(text, i) == Italic(text[i + 1..end]) && NextAt(text, i) == end + 1
  {
  }

  /** Two stars, up to the next two stars. */
  lemma BoldPiece(text: string, i: nat, end: nat, piece: string)
    requires i + 2 <= end && end + 1 < |text|
    requires text[i] == '*' && text[i + 1] == '*' && text[end] == '*' && text[end + 1] == '*'
    requires forall j :: i + 2 <= j < end ==> !Stars(text, j)
    requires piece == "\U{1B}[1m" + text[i + 2..end] + "\U{1B}[0m"
    ensures TokenAt(text, i) == Bold(text[i + 2..end]) && NextAt(text, i) == end + 2 && Ansi(TokenAt(text, i)) == piece
  {
    FindsStarsAt(text, i + 2, end);
    BoldToken(text, i, end);
    StylesWrittenOut(text[i + 2..end]);
  }

  /** Two stars that are the last two stand for themselves. */
  lemma LoneStarsPiece(text: string, i: nat)
    requires Stars(text, i) && forall j :: i + 2 <= j ==> !Stars(text, j)
    ensures NextAt(text, i) == i + 2 && Ansi(TokenAt(text, i)) == "**"
  {
    FindsNoStars(text, i + 2);
  }

  /** A single star, up to the next one, if something stands between and both are single. */
  lemma ItalicPiece(text: string, i: nat, end: nat, piece: string)
    requires i + 1 < end < |text| && text[i] == '*' && text[end] == '*'
    requires (i == 0 || text[i - 1] != '*') && (end + 1 < |text| ==> text[end + 1] != '*')
    requires '*' !in text[i + 1..end]
    requires piece == "\U{1B}[3m" + text[i + 1..end] + "\U{1B}[0m"
    ensures TokenAt(text, i) == Italic(text[i + 1..end])
    ensures NextAt(text, i) == end + 1 && Ansi(TokenAt(text, i)) == piece
  {
    ItalicEndIsClosing(text, i);
    assert ClosesItalic(text, i, end);
    ItalicToken(text, i, end);
    StylesWrittenOut(text[i + 1..end]);
  }

  /** A tick, up to the next tick. */
  lemma CodePiece(text: string, i: nat, end: nat, piece: string)
    requires i < end < |text| && text[i] == '`' && text[end] == '`' && '`' !in text[i + 1..end]
    requires piece == "\U{1B}[7m" + text[i + 1..end] + "\U{1B}[0m"
    ensures TokenAt(text, i) == Code(text[i + 1..end]) && NextAt(text, i) == end + 1 && Ansi(TokenAt(text, i)) == piece
  {
    FindsAt(text, '`', i + 1, end);
    CodeToken(text, i, end);
    StylesWrittenOut(text[i + 1..end]);
  }

  /** A dash at the start of a line with a space behind it. */
  lemma BulletPiece(text: string, i: nat)
    requires i + 1 < |text| && text[i] == '-' && text[i + 1] == ' ' && (i == 0 || text[i - 1] == '\n')
    ensures NextAt(text, i) == i + 1 && Ansi(TokenAt(text, i)) == "  \U{2022}"
  {
  }

  /** Three dashes or more at the start of a line. */
  lemma RulePiece(text: string, i: nat, end: nat)
    requires i + 3 <= end <= |text| && (i == 0 || text[i - 1] == '\n')
    requires (forall j :: i <= j < end ==> text[j] == '-') && (end < |text| ==> text[end] != '-')
    ensures NextAt(text, i) == end
    ensures Ansi(TokenAt(text, i)) == "\U{1B}[2m" + Repeated('\U{2500}', 30) + "\U{1B}[0m"
  {
    DashesEndAt(text, i + 3, end);
  }

  /** The forms in which a character opens something. */
  ghost predicate Opens(text: string, i: nat)
    requires i < |text|
  {
    || ((i == 0 || text[i - 1] == '\n')
        && (text[i] == '#' || "- " <= text[i..] || "---" <= text[i..]))
    || "**" <= text[i..]
    || (text[i] == '*' && (i == 0 || text[i - 1] != '*') && exists k: nat :: ClosesItalic(text, i, k))
    || (text[i] == '`' && '`' in text[i + 1..])
  }

  lemma StarsStand(text: string, i: nat)
    requires i < |text|
    ensures Stars(text, i) <==> "**" <= text[i..]
  {
  }

  lemma NothingOpens(text: string, i: nat)
    requires i < |text| && !Opens(text, i)
    ensures TokenAt(text, i).Plain?
  {
    TokenKinds(text, i);
    StarsStand(text, i);
    forall k | i < k < |text| && text[k] == '`'
      ensures '`' in text[i + 1..]
    {
      assert text[i + 1..][k - i - 1] == '`';
    }
  }

  /** Every other character stands for itself. */
  lemma PlainPiece(text: string, i: nat)
    requires i < |text| && !Opens(text, i)
    ensures NextAt(text, i) == i + 1 && Ansi(TokenAt(text, i)) == [text[i]]
  {
    NothingOpens(text, i);
    TokenIsSlice(text, i);
  }

  // Whole texts.

  /** Text in which nothing is recognised. */
  predicate Bare(s: string) {
    s != [] && forall j :: 0 <= j < |s| ==> Unmarked(s[j]) && s[j] != '\n'
  }

  lemma OnlyToken(text: string)
    requires text != [] && NextAt(text, 0) == |text|
    ensures Rendered(text) == Ansi(TokenAt(text, 0))
  {
    OutputFirst(text, 0);
    assert Translated(Tokens(text, |text|)) == "";
  }

  lemma BoldRendered(s: string)
    requires Bare(s)
    ensures Rendered("**" + s + "**") == "\U{1B}[1m" + s + "\U{1B}[0m"
  {
    var text := "**" + s + "**";
    assert forall j :: 0 <= j < |s| ==> text[j + 2] == s[j];
    assert text[2..|s| + 2] == s;
    BoldPiece(text, 0, |s| + 2, "\U{1B}[1m" + s + "\U{1B}[0m");
    OnlyToken(text);
  }

  lemma ItalicRendered(s: string)
    requires Bare(s)
    ensures Rendered("*" + s + "*") == "\U{1B}[3m" + s + "\U{1B}[0m"
  {
    var text := "*" + s + "*";
    assert text[1] == s[0] && text[1..|s| + 1] == s;
    ItalicPiece(text, 0, |s| + 1, "\U{1B}[3m" + s + "\U{1B}[0m");
    OnlyToken(text);
  }

  lemma CodeRendered(s: string)
    requires Bare(s)
    ensures Rendered("`" + s + "`") == "\U{1B}[7m" + s + "\U{1B}[0m"
  {
    var text := "`" + s + "`";
    assert text[1..|s| + 1] == s;
    CodePiece(text, 0, |s| + 1, "\U{1B}[7m" + s + "\U{1B}[0m");
    OnlyToken(text);
  }

  lemma HeaderRendered(s: string)
    requires Bare(s)
    ensures Rendered("# " + s) == "\U{1B}[1;4m" + ("# " + s) + "\U{1B}[0m"
  {
    var text := "# " + s;
    assert text[0..|text|] == text;
    HeaderPiece(text, 0, |text|, "\U{1B}[1;4m" + text + "\U{1B}[0m");
    OnlyToken(text);
  }

  lemma RuleRendered(n: nat)
    requires 3 <= n
    ensures Rendered(Repeated('-', n)) == "\U{1B}[2m" + Repeated('\U{2500}', 30) + "\U{1B}[0m"
  {
    RulePiece(Repeated('-', n), 0, n);
    OnlyToken(Repeated('-', n));
  }

  lemma UnmarkedOpensNothing(text: string, i: nat)
    requires i < |text| && Unmarked(text[i])
    ensures !Opens(text, i)
  {
    assert text[i..][0] == text[i];
  }

  /** From a position with nothing to recognise behind it. */
  lemma {:induction false} BareTail(text: string, i: nat)
    requires i <= |text| && forall j :: i <= j < |text| ==> Unmarked(text[j])
    ensures Translated(Tokens(text, i)) == text[i..]
    decreases |text| - i
  {
    if i < |text| {
      BareTail(text, i + 1);
      BareStep(text, i);
    }
  }

  lemma BareStep(text: string, i: nat)
    requires i < |text| && Unmarked(text[i]) && Translated(Tokens(text, i + 1)) == text[i + 1..]
    ensures Translated(Tokens(text, i)) == text[i..]
  {
    UnmarkedOpensNothing(text, i);
    PlainPiece(text, i);
    OutputFirst(text, i);
    TailCons(text, i);
  }

  lemma TailCons(text: string, i: nat)
    requires i < |text|
    ensures text[i..] == [text[i]] + text[i + 1..]
  {
  }

  lemma ItemRendered(text: string, item: string)
    requires text == "-" + item && " " <= item && forall j :: 0 <= j < |item| ==> Unmarked(item[j])
    ensures Rendered(text) == "  \U{2022}" + item
  {
    assert text[1] == item[0] && text[1..] == item;
    assert forall j :: 1 <= j < |text| ==> text[j] == item[j - 1];
    BulletPiece(text, 0);
    BareTail(text, 1);
    OutputFirst(text, 0);
  }

  lemma BulletRendered(s: string)
    requires Bare(s)
    ensures Rendered("- " + s) == "  \U{2022} " + s
  {
    Associative("-", " ", s);
    Associative("  \U{2022}", " ", s);
    ItemRendered("- " + s, " " + s);
  }

  // ── Balanced ────────────────────────────────────────────────────────

  /** Length of the style opener s starts with; 0 if there is none. */
  function OpenerLength(s: string): (n: nat)
    ensures n <= |s|
    ensures n > 0 ==> s[0] == ESC
  {
    if BOLD <= s then |BOLD|
    else if ITALIC <= s then |ITALIC|
    else if CODE <= s then |CODE|
    else if HEADER <= s then |HEADER|
    else if DIM <= s then |DIM|
    else 0
  }

  /** s starts with one of the escape sequences the translation uses. */
  predicate Starts(s: string) {
    OpenerLength(s) > 0 || RESET <= s
  }

  /** Every opener is followed by a reset before the next opener, nothing is reset
      that is not open, and nothing stays open at the end.  An escape character that
      starts no sequence is text. */
  predicate Balanced(s: string, open: bool)
    decreases |s|
  {
    if s == [] then !open
    else if OpenerLength(s) > 0 then !open && Balanced(s[OpenerLength(s)..], true)
    else if RESET <= s then open && Balanced(s[|RESET|..], false)
    else Balanced(s[1..], open)
  }

  /** No sequence occurs anywhere in the text. */
  ghost predicate Clean(text: string) {
    forall i :: 0 <= i <= |text| ==> !Starts(text[i..])
  }

  /** What a terminal shows: the text without the escape sequences. */
  function Visible(s: string): string
    decreases |s|
  {
    if s == [] then ""
    else if OpenerLength(s) > 0 then Visible(s[OpenerLength(s)..])
    else if RESET <= s then Visible(s[|RESET|..])
    else [s[0]] + Visible(s[1..])
  }

  /** What is to be shown of a token: its text without markers. */
  function Shown(t: Token): string {
    match t
    case Header(text) => text
    case Bold(text) => text
    case LoneStars => "**"
    case Italic(text) => text
    case Code(text) => text
    case Bullet => BULLET
    case Rule(_) => LINE
    case Plain(c) => [c]
  }

  function ShownAll(tokens: seq<Token>): string {
    if tokens == [] then "" else Shown(tokens[0]) + ShownAll(tokens[1..])
  }

  lemma HeadApart(text: string, tail: string)
    requires text != []
    ensures text + tail == [text[0]] + (text[1..] + tail)
  {
  }

  /** In front of rest no sequence starts inside text. */
  ghost predicate Quiet(text: string, rest: string) {
    forall i :: 0 <= i < |text| ==> !Starts(text[i..] + rest)
  }

  lemma {:induction false} TextKeepsBalance(text: string, rest: string, open: bool)
    requires Quiet(text, rest)
    ensures Balanced(text + rest, open) == Balanced(rest, open)
    ensures Visible(text + rest) == text + Visible(rest)
  {
    if text == [] {
      assert text + rest == rest;
    } else {
      assert text[0..] == text;
      assert forall i :: 0 <= i < |text| - 1 ==> text[1..][i..] == text[i + 1..];
      TextKeepsBalance(text[1..], rest, open);
      HeadApart(text, rest);
      assert (text + rest)[1..] == text[1..] + rest;
      HeadApart(text, Visible(rest));
    }
  }

  predicate IsOpener(s: string) {
    s == BOLD || s == ITALIC || s == CODE || s == HEADER || s == DIM
  }

  /** Openers are told apart by their own characters. */
  lemma OpenerOpens(opener: string, rest: string)
    requires IsOpener(opener)
    ensures OpenerLength(opener + rest) == |opener| && (opener + rest)[|opener|..] == rest
  {
    var s := opener + rest;
    assert s[0] == ESC && s[2] == opener[2] && s[3] == opener[3];
    assert BOLD <= s ==> s[2] == BOLD[2] && s[3] == BOLD[3];
    assert ITALIC <= s ==> s[2] == ITALIC[2];
    assert CODE <= s ==> s[2] == CODE[2];
    assert HEADER <= s ==> s[2] == HEADER[2] && s[3] == HEADER[3];
    assert DIM <= s ==> s[2] == DIM[2];
    assert opener <= s;
  }

  lemma ResetCloses(rest: string)
    ensures Balanced(RESET + rest, true) == Balanced(rest, false)
    ensures Visible(RESET + rest) == Visible(rest)
  {
    var s := RESET + rest;
    assert s[2] == '0' && RESET <= s && s[|RESET|..] == rest;
  }

  lemma OpenerShifts(opener: string, tail: string)
    requires IsOpener(opener)
    ensures Balanced(opener + tail, false) == Balanced(tail, true)
    ensures Visible(opener + tail) == Visible(tail)
  {
    OpenerOpens(opener, tail);
  }

  predicate IsSequence(q: string) {
    IsOpener(q) || q == RESET
  }

  lemma StartsWithSequence(s: string)
    ensures Starts(s) <==> exists q :: IsSequence(q) && q <= s
  {
    assert IsSequence(BOLD) && IsSequence(ITALIC) && IsSequence(CODE) && IsSequence(HEADER) && IsSequence(DIM)
      && IsSequence(RESET);
  }

  lemma StartsInLonger(s: string, longer: string)
    requires s <= longer && Starts(s)
    ensures Starts(longer)
  {
    StartsWithSequence(s);
    var q :| IsSequence(q) && q <= s;
    assert q <= longer by {
      assert longer[..|s|] == s;
    }
    StartsWithSequence(longer);
  }

  /** Only an escape character starts a sequence. */
  lemma NoEscapeIsQuiet(text: string, rest: string)
    requires ESC !in text
    ensures Quiet(text, rest)
  {
    forall i | 0 <= i < |text|
      ensures !Starts(text[i..] + rest)
    {
      assert (text[i..] + rest)[0] == text[i];
    }
  }

  lemma CleanPart(text: string, i: nat, j: nat)
    requires i <= j <= |text| && Clean(text)
    ensures Clean(text[i..j])
  {
    var part := text[i..j];
    forall k | 0 <= k <= |part|
      ensures !Starts(part[k..])
    {
      if Starts(part[k..]) {
        assert part[k..] <= text[i + k..];
        StartsInLonger(part[k..], text[i + k..]);
      }
    }
  }

  /** The characters of a sequence after its escape character. */
  predicate SequenceBody(s: string) {
    forall i :: 0 <= i < |s| ==> s[i] != ESC && s[i] != '*' && s[i] != ' '
  }

  lemma SequenceShape(q: string)
    requires IsSequence(q)
    ensures q != [] && q[0] == ESC && SequenceBody(q[1..])
  {
  }

  /** No sequence continues over an escape character. */
  lemma SequenceEndsBefore(q: string, text: string, rest: string)
    requires IsSequence(q) && text != [] && rest != [] && rest[0] == ESC && q <= text + rest
    ensures q <= text
  {
    SequenceShape(q);
    assert (text + rest)[|text|] == ESC;
    assert forall i :: 0 < i < |q| ==> q[i] == q[1..][i - 1] && q[i] != ESC;
  }

  lemma CleanIsQuiet(text: string, rest: string)
    requires Clean(text) && rest != [] && rest[0] == ESC
    ensures Quiet(text, rest)
  {
    forall i | 0 <= i < |text|
      ensures !Starts(text[i..] + rest)
    {
      StartsWithSequence(text[i..] + rest);
      if q :| IsSequence(q) && q <= text[i..] + rest {
        SequenceEndsBefore(q, text[i..], rest);
        StartsWithSequence(text[i..]);
      }
    }
  }

  lemma StyledIsBalanced(opener: string, text: string, rest: string)
    requires IsOpener(opener) && Clean(text)
    ensures Balanced(opener + text + RESET + rest, false) == Balanced(rest, false)
    ensures Visible(opener + text + RESET + rest) == text + Visible(rest)
  {
    var tail := RESET + rest;
    Associative(opener + text, RESET, rest);
    Associative(opener, text, tail);
    StyledKeepsBalance(opener, text, tail, rest, text + tail);
  }

  lemma StyledKeepsBalance(opener: string, text: string, tail: string, rest: string, inner: string)
    requires IsOpener(opener) && Clean(text) && tail == RESET + rest && inner == text + tail
    ensures Balanced(opener + inner, false) == Balanced(rest, false)
    ensures Visible(opener + inner) == text + Visible(rest)
  {
    OpenerShifts(opener, inner);
    CleanIsQuiet(text, tail);
    TextKeepsBalance(text, tail, true);
    ResetCloses(rest);
  }

  lemma OrdinaryKeepsBalance(text: string, rest: string)
    requires Quiet(text, rest)
    ensures Balanced(text + rest, false) == Balanced(rest, false)
    ensures Visible(text + rest) == text + Visible(rest)
  {
    TextKeepsBalance(text, rest, false);
  }

  /** No sequence occurs in a styled text; a plain character starts none here. */
  ghost predicate Harmless(t: Token, rest: string) {
    match t
    case Header(text) => Clean(text)
    case Bold(text) => Clean(text)
    case Italic(text) => Clean(text)
    case Code(text) => Clean(text)
    case Plain(c) => !Starts([c] + rest)
    case _ => true
  }

  lemma PlainKeepsBalance(c: char, rest: string)
    requires !Starts([c] + rest)
    ensures Balanced([c] + rest, false) == Balanced(rest, false)
    ensures Visible([c] + rest) == [c] + Visible(rest)
  {
    assert [c][0..] == [c];
    OrdinaryKeepsBalance([c], rest);
  }

  lemma UnstyledKeepsBalance(text: string, rest: string)
    requires ESC !in text
    ensures Balanced(text + rest, false) == Balanced(rest, false)
    ensures Visible(text + rest) == text + Visible(rest)
  {
    NoEscapeIsQuiet(text, rest);
    OrdinaryKeepsBalance(text, rest);
  }

  lemma TokenKeepsBalance(t: Token, rest: string)
    requires Harmless(t, rest)
    ensures Balanced(Ansi(t) + rest, false) == Balanced(rest, false)
    ensures Visible(Ansi(t) + rest) == Shown(t) + Visible(rest)
  {
    match t
    case Header(text) => StyledIsBalanced(HEADER, text, rest);
    case Bold(text) => StyledIsBalanced(BOLD, text, rest);
    case LoneStars => UnstyledKeepsBalance("**", rest);
    case Italic(text) => StyledIsBalanced(ITALIC, text, rest);
    case Code(text) => StyledIsBalanced(CODE, text, rest);
    case Bullet => UnstyledKeepsBalance(BULLET, rest);
    case Rule(_) => NoEscapeIsClean(LINE); StyledIsBalanced(DIM, LINE, rest);
    case Plain(c) => PlainKeepsBalance(c, rest);
  }

  /** The rest of a sequence can come only from plain characters. */
  lemma {:induction false} BodyIsInSource(body: string, tokens: seq<Token>)
    requires SequenceBody(body) && body <= Translated(tokens)
    ensures body <= Sources(tokens)
    decreases |tokens|
  {
    if body != [] && tokens != [] {
      var t, left := tokens[0], Translated(tokens[1..]);
      assert body[0] == (Ansi(t) + left)[0];
      assert Ansi(t)[0] == body[0];
      assert t.Plain?;
      assert body[1..] <= left;
      BodyIsInSource(body[1..], tokens[1..]);
      assert body == [body[0]] + body[1..];
    }
  }

  lemma SequenceIsInSource(q: string, c: char, tokens: seq<Token>)
    requires q != [] && SequenceBody(q[1..]) && q <= [c] + Translated(tokens)
    ensures q <= [c] + Sources(tokens)
  {
    assert q[1..] <= Translated(tokens) by {
      assert ([c] + Translated(tokens))[1..] == Translated(tokens);
    }
    BodyIsInSource(q[1..], tokens);
    assert q == [c] + q[1..];
  }

  lemma PlainIsHarmless(c: char, tokens: seq<Token>)
    requires Clean([c] + Sources(tokens))
    ensures !Starts([c] + Translated(tokens))
  {
    var s, source := [c] + Translated(tokens), [c] + Sources(tokens);
    StartsWithSequence(s);
    StartsWithSequence(source);
    assert source[0..] == source;
    if q :| IsSequence(q) && q <= s {
      SequenceShape(q);
      SequenceIsInSource(q, c, tokens);
    }
  }

  lemma CleanInside(before: string, text: string, after: string)
    requires Clean(before + text + after)
    ensures Clean(text)
  {
    CleanPart(before + text + after, |before|, |before| + |text|);
    assert (before + text + after)[|before|..|before| + |text|] == text;
  }

  lemma SourceIsHarmless(t: Token, rest: string)
    requires !t.Plain? && Clean(Source(t))
    ensures Harmless(t, rest)
  {
    match t
    case Bold(text) => CleanInside("**", text, "**");
    case Italic(text) => CleanInside("*", text, "*");
    case Code(text) => CleanInside("`", text, "`");
    case _ =>
  }

  lemma FirstIsHarmless(t: Token, tokens: seq<Token>)
    requires Clean(Source(t) + Sources(tokens))
    ensures Harmless(t, Translated(tokens))
  {
    if t.Plain? {
      PlainIsHarmless(t.c, tokens);
    } else {
      assert "" + Source(t) == Source(t);
      CleanInside("", Source(t), Sources(tokens));
      SourceIsHarmless(t, Translated(tokens));
    }
  }

  lemma {:induction false} TokensAreBalanced(tokens: seq<Token>)
    requires Clean(Sources(tokens))
    ensures Balanced(Translated(tokens), false)
    ensures Visible(Translated(tokens)) == ShownAll(tokens)
  {
    if tokens != [] {
      var first, rest := Source(tokens[0]), Sources(tokens[1..]);
      CleanPart(first + rest, |first|, |first + rest|);
      assert (first + rest)[|first|..|first + rest|] == rest;
      TokensAreBalanced(tokens[1..]);
      FirstIsHarmless(tokens[0], tokens[1..]);
      TokenKeepsBalance(tokens[0], Translated(tokens[1..]));
    }
  }

  /** For input in which none of the used escape sequences occurs, escape characters or
      not: every style opener is closed before the next one, none is left open, and the
      terminal shows the input without its markers. */
  lemma TranslationIsBalanced(text: string)
    requires Clean(text)
    ensures Balanced(Rendered(text), false)
    ensures Visible(Rendered(text)) == ShownAll(Tokens(text, 0))
    ensures Sources(Tokens(text, 0)) == text
  {
    ScanIsLossless(text, 0);
    assert text[0..] == text;
    TokensAreBalanced(Tokens(text, 0));
  }

  lemma NoEscapeIsClean(text: string)
    requires ESC !in text
    ensures Clean(text)
  {
    forall i | 0 <= i <= |text|
      ensures !Starts(text[i..])
    {
      assert i < |text| ==> text[i..][0] == text[i];
    }
  }

  /** Text without markers is balanced after translation exactly if it was before. */
  lemma UnmarkedIsBalancedIff(text: string)
    requires forall j :: 0 <= j < |text| ==> Unmarked(text[j])
    ensures Balanced(Rendered(text), false) <==> Balanced(text, false)
  {
    UnmarkedIsUnchanged(text);
  }

  // ── Openers inside a style ──────────────────────────────────────────

  lemma OpenerInFront(s: string)
    ensures OpenerLength(s) > 0 ==> IsOpener(s[..OpenerLength(s)]) && s[..OpenerLength(s)] <= s
  {
  }

  /** A sequence at the start of x + rest lies in x, and what follows it is the rest of x
      and then rest. */
  lemma SequenceInFront(q: string, x: string, rest: string)
    requires IsSequence(q) && x != [] && rest != [] && rest[0] == ESC && q <= x + rest
    ensures 0 < |q| <= |x| && (x + rest)[|q|..] == x[|q|..] + rest
  {
    SequenceEndsBefore(q, x, rest);
  }

  /** What no state survives cannot be mended by anything in front of it. */
  lemma {:induction false} BrokenStaysBroken(x: string, rest: string, open: bool)
    requires rest != [] && rest[0] == ESC && !Balanced(rest, false) && !Balanced(rest, true)
    ensures !Balanced(x + rest, open)
    decreases |x|
  {
    var s := x + rest;
    if x == [] {
      assert s == rest;
    } else if OpenerLength(s) > 0 {
      OpenerInFront(s);
      SequenceInFront(s[..OpenerLength(s)], x, rest);
      BrokenStaysBroken(x[OpenerLength(s)..], rest, true);
    } else if RESET <= s {
      SequenceInFront(RESET, x, rest);
      BrokenStaysBroken(x[|RESET|..], rest, false);
    } else {
      assert s[1..] == x[1..] + rest;
      BrokenStaysBroken(x[1..], rest, open);
    }
  }

  predicate Styled(t: Token) {
    t.Header? || t.Bold? || t.Italic? || t.Code?
  }

  function StyleOf(t: Token): (opener: string)
    requires Styled(t)
    ensures IsOpener(opener) && Ansi(t) == opener + t.text + RESET
  {
    match t
    case Header(_) => HEADER
    case Bold(_) => BOLD
    case Italic(_) => ITALIC
    case Code(_) => CODE
  }

  /** Two openers with nothing but text between them. */
  lemma TwoOpenersBreak(first: string, u: string, second: string, rest: string)
    requires IsOpener(first) && Clean(u) && IsOpener(second)
    ensures var s := first + (u + (second + rest)); s[0] == ESC && !Balanced(s, false) && !Balanced(s, true)
  {
    var tail := second + rest;
    OpenerOpens(second, rest);
    CleanIsQuiet(u, tail);
    TextKeepsBalance(u, tail, true);
    OpenerOpens(first, u + tail);
  }

  lemma TranslatedCons(t: Token, rest: seq<Token>)
    ensures Translated([t] + rest) == Ansi(t) + Translated(rest)
  {
    assert ([t] + rest)[1..] == rest;
  }

  lemma TranslatedAppendStep(t: Token, rest: seq<Token>, b: seq<Token>, first: seq<Token>, both: seq<Token>)
    requires Translated(rest + b) == Translated(rest) + Translated(b)
    requires first == [t] + rest && both == [t] + (rest + b)
    ensures Translated(both) == Translated(first) + Translated(b)
  {
    TranslatedCons(t, rest);
    TranslatedCons(t, rest + b);
    Associative(Ansi(t), Translated(rest), Translated(b));
  }

  lemma HeadOfBoth(a: seq<Token>, b: seq<Token>)
    requires a != []
    ensures a == [a[0]] + a[1..] && a + b == [a[0]] + (a[1..] + b)
  {
  }

  lemma {:induction false} TranslatedAppend(a: seq<Token>, b: seq<Token>)
    ensures Translated(a + b) == Translated(a) + Translated(b)
  {
    if a == [] {
      assert a + b == b;
    } else {
      TranslatedAppend(a[1..], b);
      HeadOfBoth(a, b);
      TranslatedAppendStep(a[0], a[1..], b, a, a + b);
    }
  }

  lemma StyledGroups(t: Token, u: string, second: string, v: string, rest: string)
    requires Styled(t) && t.text == u + second + v
    ensures Ansi(t) + rest == StyleOf(t) + (u + (second + (v + RESET + rest)))
  {
    var first := StyleOf(t);
    Associative(first + t.text, RESET, rest);
    Associative(first, u + second + v, RESET + rest);
    Associative(u + second, v, RESET + rest);
    Associative(u, second, v + (RESET + rest));
    Associative(v, RESET, rest);
  }

  lemma StyledOpenerBreaks(before: string, t: Token, u: string, second: string, v: string, after: string)
    requires Styled(t) && t.text == u + second + v && Clean(u) && IsOpener(second)
    ensures !Balanced(before + (Ansi(t) + after), false)
  {
    StyledGroups(t, u, second, v, after);
    TwoOpenersBreak(StyleOf(t), u, second, v + RESET + after);
    BrokenStaysBroken(before, Ansi(t) + after, false);
  }

  lemma TranslatedAround(before: seq<Token>, t: Token, after: seq<Token>)
    ensures Translated(before + ([t] + after)) == Translated(before) + (Ansi(t) + Translated(after))
  {
    TranslatedAppend(before, [t] + after);
    TranslatedCons(t, after);
  }

  lemma SplitAt(tokens: seq<Token>, k: nat)
    requires k < |tokens|
    ensures tokens == tokens[..k] + ([tokens[k]] + tokens[k + 1..])
  {
  }

  /** If the first sequence inside some styled text is an opener, the output is not
      balanced, whatever the rest of the input is. */
  lemma OpenerInStyledTextBreaksBalance(text: string, k: nat, u: string, second: string, v: string)
    requires k < |Tokens(text, 0)| && Styled(Tokens(text, 0)[k])
    requires Tokens(text, 0)[k].text == u + second + v && Clean(u) && IsOpener(second)
    ensures !Balanced(Rendered(text), false)
  {
    OpenerInTokensBreaks(Tokens(text, 0), k, u, second, v);
  }

  lemma OpenerInTokensBreaks(tokens: seq<Token>, k: nat, u: string, second: string, v: string)
    requires k < |tokens| && Styled(tokens[k]) && tokens[k].text == u + second + v && Clean(u) && IsOpener(second)
    ensures !Balanced(Translated(tokens), false)
  {
    SplitAt(tokens, k);
    TranslatedAround(tokens[..k], tokens[k], tokens[k + 1..]);
    StyledOpenerBreaks(Translated(tokens[..k]), tokens[k], u, second, v, Translated(tokens[k + 1..]));
  }

  /** An opener in the input stays open to the end of the output. */
  lemma RawSequenceBreaksBalance()
    ensures !Clean(BOLD) && Rendered(BOLD) == BOLD && !Balanced(Rendered(BOLD), false)
  {
    UnmarkedIsUnchanged(BOLD);
    assert BOLD[0..] == BOLD;
    assert BOLD[|BOLD|..] == "";
  }
}
