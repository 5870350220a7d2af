/** Byte-level UTF-8 (section 3 of RFC 3629) and lossy decoding, in which every
    maximal ill-formed piece is replaced by one U+FFFD. */
module Utf8 {
  import opened Base

  const REPLACEMENT: Text := [0xEF, 0xBF, 0xBD]

  /** Second and later bytes of a multi-byte character. */
  predicate Continuation(b: byte) {
    0x80 <= b < 0xC0
  }

  /** Length announced by a first byte; 0 if no character starts with it. */
  function Width(b: byte): nat {
    if b < 0x80 then 1
    else if 0xC2 <= b < 0xE0 then 2
    else if 0xE0 <= b < 0xF0 then 3
    else if 0xF0 <= b < 0xF5 then 4
    else 0
  }

  /** Which second bytes may follow a first byte: no overlong forms, no surrogates,
      nothing above U+10FFFF. */
  predicate SecondByte(first: byte, second: byte) {
    if first == 0xE0 then 0xA0 <= second < 0xC0
    else if first == 0xED then 0x80 <= second < 0xA0
    else if first == 0xF0 then 0x90 <= second < 0xC0
    else if first == 0xF4 then 0x80 <= second < 0x90
    else Continuation(second)
  }

  /** Bytes of the character, or of the ill-formed piece, that s starts with. */
  function Piece(s: Text): (n: nat)
    requires s != []
    ensures 1 <= n <= |s| && n <= 4
  {
    var w := Width(s[0]);
    if w <= 1 then 1
    else if |s| < 2 || !SecondByte(s[0], s[1]) then 1
    else if w == 2 then 2
    else if |s| < 3 || !Continuation(s[2]) then 2
    else if w == 3 then 3
    else if |s| < 4 || !Continuation(s[3]) then 3
    else 4
  }

  predicate StartsWithChar(s: Text)
    requires s != []
  {
    Piece(s) == Width(s[0])
  }

  predicate Valid(s: Text) {
    s == [] || (StartsWithChar(s) && Valid(s[Piece(s)..]))
  }

  function Lossy(s: Text): Text {
    if s == [] then []
    else (if StartsWithChar(s) then s[..Piece(s)] else REPLACEMENT) + Lossy(s[Piece(s)..])
  }

  /** Position k does not fall inside a character. */
  predicate Boundary(s: Text, k: nat)
    requires k <= |s|
  {
    k == 0 || k == |s| || !Continuation(s[k])
  }

  lemma {:induction false} LossyOfValid(s: Text)
    requires Valid(s)
    ensures Lossy(s) == s
  {
    if s != [] {
      LossyOfValid(s[Piece(s)..]);
    }
  }

  lemma {:induction false} LossyGrows(s: Text)
    ensures |s| <= |Lossy(s)|
  {
    if s != [] {
      LossyGrows(s[Piece(s)..]);
    }
  }

  /** A character is recognised by its own bytes, whatever follows. */
  lemma CharIsLocal(s: Text, t: Text)
    requires s != [] && StartsWithChar(s)
    ensures var u := s[..Piece(s)] + t;
      StartsWithChar(u) && Piece(u) == Piece(s) && u[Piece(u)..] == t
  {
  }

  lemma {:induction false} LossyIsValid(s: Text)
    ensures Valid(Lossy(s))
  {
    if s != [] {
      var rest := Lossy(s[Piece(s)..]);
      LossyIsValid(s[Piece(s)..]);
      if StartsWithChar(s) {
        CharIsLocal(s, rest);
      } else {
        CharIsLocal(REPLACEMENT, rest);
        assert REPLACEMENT[..3] == REPLACEMENT;
      }
    }
  }

  /** Lossy decoding changes nothing exactly on valid text. */
  lemma LossyIsIdentityIffValid(s: Text)
    ensures Lossy(s) == s <==> Valid(s)
  {
    LossyIsValid(s);
    if Valid(s) {
      LossyOfValid(s);
    }
  }

  lemma BoundaryIsPastFirst(s: Text, k: nat)
    requires s != [] && StartsWithChar(s) && 0 < k <= |s| && Boundary(s, k)
    ensures Piece(s) <= k && Boundary(s[Piece(s)..], k - Piece(s))
  {
  }

  /** Text that goes on after a character is valid if the rest is. */
  lemma CharThenValid(s: Text, t: Text)
    requires s != [] && StartsWithChar(s) && Valid(t)
    ensures Valid(s[..Piece(s)] + t)
  {
    CharIsLocal(s, t);
  }

  /** Cutting behind the first n elements and then k - n further on. */
  lemma CutFurtherOn(s: Text, n: nat, k: nat)
    requires n <= k <= |s|
    ensures s[n..][k - n..] == s[k..] && s[..n] + s[n..][..k - n] == s[..k]
  {
  }

  /** Cutting valid text at a boundary gives two valid texts. */
  lemma {:induction false} CutAtBoundary(s: Text, k: nat)
    requires Valid(s) && k <= |s| && Boundary(s, k)
    ensures Valid(s[..k]) && Valid(s[k..])
    decreases |s|
  {
    if k == 0 {
      assert s[k..] == s;
    } else {
      var n := Piece(s);
      BoundaryIsPastFirst(s, k);
      CutPastFirst(s, n, k, s[n..][..k - n]);
    }
  }

  lemma {:induction false} CutPastFirst(s: Text, n: nat, k: nat, middle: Text)
    requires Valid(s) && s != [] && n == Piece(s) <= k <= |s| && Boundary(s[n..], k - n)
    requires middle == s[n..][..k - n]
    ensures Valid(s[..k]) && Valid(s[k..])
    decreases |s|, 0
  {
    CutFurtherOn(s, n, k);
    CutAtBoundary(s[n..], k - n);
    CharThenValid(s, middle);
  }

  /** Valid text never starts inside a character. */
  lemma ValidStartsAtBoundary(s: Text, k: nat, part: Text)
    requires k <= |s| && part != [] && part <= s[k..] && Valid(part)
    ensures Boundary(s, k)
  {
    assert part[0] == s[k];
  }

  // ── What valid text is ──────────────────────────────────────────────

  /** The code points of characters: up to U+10FFFF, without surrogates. */
  predicate Scalar(c: nat) {
    c < 0xD800 || 0xE000 <= c < 0x11_0000
  }

  /** The bytes of a character: the table of section 3 of RFC 3629. */
  function Encoded(c: nat): (bytes: Text)
    requires Scalar(c)
    ensures 1 <= |bytes| <= 4
  {
    if c < 0x80 then [c]
    else if c < 0x800 then [0xC0 + c / 64, 0x80 + c % 64]
    else if c < 0x1_0000 then [0xE0 + c / 4096, 0x80 + c / 64 % 64, 0x80 + c % 64]
    else [0xF0 + c / 262144, 0x80 + c / 4096 % 64, 0x80 + c / 64 % 64, 0x80 + c % 64]
  }

  ghost predicate IsChar(bytes: Text) {
    exists c :: Scalar(c) && bytes == Encoded(c)
  }

  /** The bytes form one character, whatever follows. */
  predicate WellFormed(bytes: Text) {
    && 1 <= |bytes| <= 4 && Width(bytes[0]) == |bytes|
    && (2 <= |bytes| ==> SecondByte(bytes[0], bytes[1]))
    && (3 <= |bytes| ==> Continuation(bytes[2]))
    && (4 <= |bytes| ==> Continuation(bytes[3]))
  }

  lemma WellFormedIsChar(bytes: Text, rest: Text, s: Text)
    requires WellFormed(bytes) && s == bytes + rest
    ensures StartsWithChar(s) && Piece(s) == |bytes|
  {
    assert forall i :: 0 <= i < |bytes| ==> s[i] == bytes[i];
  }

  lemma TwoAreWellFormed(c: nat)
    requires 0x80 <= c < 0x800
    ensures WellFormed(Encoded(c))
  {
  }

  lemma ThreeAreWellFormed(c: nat)
    requires 0x800 <= c < 0x1_0000 && Scalar(c)
    ensures WellFormed(Encoded(c))
  {
  }

  lemma FourAreWellFormed(c: nat)
    requires 0x1_0000 <= c < 0x11_0000
    ensures WellFormed(Encoded(c))
  {
  }

  /** Every encoded character is recognised, and nothing more than it. */
  lemma EncodedIsChar(c: nat, rest: Text, s: Text)
    requires Scalar(c) && s == Encoded(c) + rest
    ensures StartsWithChar(s) && Piece(s) == |Encoded(c)|
  {
    if 0x1_0000 <= c {
      FourAreWellFormed(c);
    } else if 0x800 <= c {
      ThreeAreWellFormed(c);
    } else if 0x80 <= c {
      TwoAreWellFormed(c);
    }
    WellFormedIsChar(Encoded(c), rest, s);
  }

  /** The payload of byte i, counted from low. */
  function Bits(s: Text, i: nat, low: nat): nat
    requires i < |s| && low <= s[i]
  {
    s[i] as int - low
  }

  /** The character a recognised piece stands for. */
  function Decoded(s: Text): nat
    requires s != [] && StartsWithChar(s)
  {
    if Piece(s) == 1 then Bits(s, 0, 0)
    else if Piece(s) == 2 then Bits(s, 0, 0xC0) * 64 + Bits(s, 1, 0x80)
    else if Piece(s) == 3 then Bits(s, 0, 0xE0) * 4096 + Bits(s, 1, 0x80) * 64 + Bits(s, 2, 0x80)
    else Bits(s, 0, 0xF0) * 262144 + Bits(s, 1, 0x80) * 4096 + Bits(s, 2, 0x80) * 64 + Bits(s, 3, 0x80)
  }

  lemma Split3(a: nat, b: nat, c: nat)
    requires b < 64 && c < 64
    ensures var n := a * 4096 + b * 64 + c; n / 4096 == a && n / 64 % 64 == b && n % 64 == c
  {
    var n := a * 4096 + b * 64 + c;
    assert n == (a * 64 + b) * 64 + c;
    assert n / 64 == a * 64 + b;
  }

  lemma Split4(a: nat, b: nat, c: nat, d: nat)
    requires b < 64 && c < 64 && d < 64
    ensures var n := a * 262144 + b * 4096 + c * 64 + d;
      n / 262144 == a && n / 4096 % 64 == b && n / 64 % 64 == c && n % 64 == d
  {
    var n := a * 262144 + b * 4096 + c * 64 + d;
    Split3(a * 64 + b, c, d);
    assert n == (a * 64 + b) * 4096 + c * 64 + d;
  }

  lemma TwoIsEncoded(a: nat, b: nat)
    requires 2 <= a < 32 && b < 64
    ensures Scalar(a * 64 + b) && Encoded(a * 64 + b) == [0xC0 + a, 0x80 + b]
  {
  }

  lemma ThreeIsEncoded(a: nat, b: nat, c: nat)
    requires a < 16 && b < 64 && c < 64 && (a == 0 ==> 32 <= b) && (a == 13 ==> b < 32)
    ensures Scalar(a * 4096 + b * 64 + c) && Encoded(a * 4096 + b * 64 + c) == [0xE0 + a, 0x80 + b, 0x80 + c]
  {
    Split3(a, b, c);
  }

  lemma FourIsEncoded(a: nat, b: nat, c: nat, d: nat)
    requires a < 5 && b < 64 && c < 64 && d < 64 && (a == 0 ==> 16 <= b) && (a == 4 ==> b < 16)
    ensures Scalar(a * 262144 + b * 4096 + c * 64 + d)
    ensures Encoded(a * 262144 + b * 4096 + c * 64 + d) == [0xF0 + a, 0x80 + b, 0x80 + c, 0x80 + d]
  {
    Split4(a, b, c, d);
  }

  lemma FirstBytes(s: Text, n: nat)
    requires 1 <= n <= |s| && n <= 4
    ensures n == 1 ==> s[..n] == [s[0]]
    ensures n == 2 ==> s[..n] == [s[0], s[1]]
    ensures n == 3 ==> s[..n] == [s[0], s[1], s[2]]
    ensures n == 4 ==> s[..n] == [s[0], s[1], s[2], s[3]]
  {
  }

  /** Every recognised piece is the encoding of a character. */
  lemma CharIsEncoded(s: Text)
    requires s != [] && StartsWithChar(s)
    ensures Scalar(Decoded(s)) && s[..Piece(s)] == Encoded(Decoded(s))
  {
    var n := Piece(s);
    FirstBytes(s, n);
    if n == 2 {
      TwoIsEncoded(Bits(s, 0, 0xC0), Bits(s, 1, 0x80));
    } else if n == 3 {
      ThreeIsEncoded(Bits(s, 0, 0xE0), Bits(s, 1, 0x80), Bits(s, 2, 0x80));
    } else if n == 4 {
      FourIsEncoded(Bits(s, 0, 0xF0), Bits(s, 1, 0x80), Bits(s, 2, 0x80), Bits(s, 3, 0x80));
    }
  }

  /** The encodings of a text's characters, one after the other. */
  function EncodedAll(chars: seq<nat>): Text
    requires forall i :: 0 <= i < |chars| ==> Scalar(chars[i])
  {
    if chars == [] then [] else Encoded(chars[0]) + EncodedAll(chars[1..])
  }

  ghost predicate Encodes(chars: seq<nat>, s: Text) {
    (forall i :: 0 <= i < |chars| ==> Scalar(chars[i])) && EncodedAll(chars) == s
  }

  lemma {:induction false} EncodedIsValid(chars: seq<nat>, s: Text)
    requires Encodes(chars, s)
    ensures Valid(s)
    decreases |chars|
  {
    if chars != [] {
      EncodedIsValid(chars[1..], EncodedAll(chars[1..]));
      EncodedIsChar(chars[0], EncodedAll(chars[1..]), s);
      assert s[|Encoded(chars[0])|..] == EncodedAll(chars[1..]);
    }
  }

  lemma EncodesCons(c: nat, rest: seq<nat>, head: Text, tail: Text)
    requires Scalar(c) && head == Encoded(c) && Encodes(rest, tail)
    ensures Encodes([c] + rest, head + tail)
  {
    assert ([c] + rest)[1..] == rest;
  }

  lemma {:induction false} ValidIsEncoded(s: Text) returns (chars: seq<nat>)
    requires Valid(s)
    ensures Encodes(chars, s)
  {
    chars := [];
    if s != [] {
      var head, tail := s[..Piece(s)], s[Piece(s)..];
      CharIsEncoded(s);
      var rest := ValidIsEncoded(tail);
      EncodesCons(Decoded(s), rest, head, tail);
      chars := [Decoded(s)] + rest;
      assert s == head + tail;
    }
  }

  /** Valid text is what encoding a sequence of characters gives. */
  lemma ValidIffEncoded(s: Text)
    ensures Valid(s) <==> exists chars :: Encodes(chars, s)
  {
    if Valid(s) {
      var chars := ValidIsEncoded(s);
    }
    if chars :| Encodes(chars, s) {
      EncodedIsValid(chars, s);
    }
  }

  /** What ill-formed pieces are replaced by is U+FFFD. */
  lemma ReplacementIsEncoded()
    ensures Encoded(0xFFFD) == REPLACEMENT
  {
  }
}
