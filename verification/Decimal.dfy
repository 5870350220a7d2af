/** Decimal numbers as text, and splitting text at a separator. */
module Decimal {
  import opened Base

  predicate IsDigit(c: char) {
    '0' <= c <= '9'
  }

  function Value(c: char): nat
    requires IsDigit(c)
  {
    (c - '0') as int
  }

  function Digit(d: nat): (c: char)
    requires d < 10
    ensures IsDigit(c) && Value(c) == d
  {
    '0' + d as char
  }

  predicate AllDigits(s: string) {
    forall i :: 0 <= i < |s| ==> IsDigit(s[i])
  }

  /** Decimal notation without leading zeros. */
  function Show(n: nat): (s: string)
    ensures s != [] && AllDigits(s)
  {
    if n < 10 then [Digit(n)] else Show(n / 10) + [Digit(n % 10)]
  }

  function ShowInt(i: int): string {
    if i < 0 then "-" + Show(-i) else Show(i)
  }

  /** The number that s adds to the digits already read, acc. */
  function ReadFrom(acc: nat, s: string): nat
    requires AllDigits(s)
    decreases |s|
  {
    if s == [] then acc else ReadFrom(acc * 10 + Value(s[0]), s[1..])
  }

  lemma {:induction false} ReadAppend(acc: nat, a: string, b: string)
    requires AllDigits(a) && AllDigits(b)
    ensures AllDigits(a + b) && ReadFrom(acc, a + b) == ReadFrom(ReadFrom(acc, a), b)
    decreases |a|
  {
    if a == [] {
      assert a + b == b;
    } else {
      ReadAppend(acc * 10 + Value(a[0]), a[1..], b);
      assert (a + b)[0] == a[0] && (a + b)[1..] == a[1..] + b;
    }
  }

  lemma {:induction false} ReadShow(n: nat)
    ensures ReadFrom(0, Show(n)) == n
  {
    if n < 10 {
      assert ReadFrom(n, []) == n;
    } else {
      ReadShow(n / 10);
      ReadAppend(0, Show(n / 10), [Digit(n % 10)]);
      assert ReadFrom(n / 10, [Digit(n % 10)]) == ReadFrom(n / 10 * 10 + n % 10, []);
    }
  }

  lemma ShowInjective(a: nat, b: nat)
    requires Show(a) == Show(b)
    ensures a == b
  {
    ReadShow(a);
    ReadShow(b);
  }

  lemma ShowIntInjective(a: int, b: int)
    requires ShowInt(a) == ShowInt(b)
    ensures a == b
  {
    assert a < 0 <==> ShowInt(a)[0] == '-';
    assert b < 0 <==> ShowInt(b)[0] == '-';
    if a < 0 && b < 0 {
      assert ShowInt(a)[1..] == Show(-a) && ShowInt(b)[1..] == Show(-b);
      ShowInjective(-a, -b);
    } else {
      ShowInjective(a, b);
    }
  }

  function PowerOfTen(k: nat): nat {
    if k == 0 then 1 else 10 * PowerOfTen(k - 1)
  }

  lemma {:induction false} ShowLength(n: nat, k: nat)
    requires 1 <= k && n < PowerOfTen(k)
    ensures |Show(n)| <= k
  {
    if 10 <= n {
      ShowLength(n / 10, k - 1);
    }
  }

  /** A 64-bit number takes at most 20 characters. */
  lemma ShowI64Length(i: i64)
    ensures 1 <= |ShowInt(i)| <= 20
  {
    assert PowerOfTen(5) == 100_000;
    assert PowerOfTen(10) == 10_000_000_000;
    assert PowerOfTen(15) == 1_000_000_000_000_000;
    assert PowerOfTen(19) == 10_000_000_000_000_000_000;
    var n: int := i;
    ShowLength(if n < 0 then -n else n, 19);
  }

  // ── Parsing an unsigned number, as the standard library does ────────

  function ParseDigits(s: string, acc: nat, bound: nat): (r: Option<nat>)
    requires acc < bound
    ensures r.Some? ==> r.value < bound
  {
    if s == [] then Some(acc)
    else if !IsDigit(s[0]) then None
    else
      var next := acc * 10 + Value(s[0]);
      if bound <= next then None else ParseDigits(s[1..], next, bound)
  }

  /** An optional plus sign and at least one digit; None on overflow of the type. */
  function ParseUnsigned(s: string, bound: nat): (r: Option<nat>)
    requires 0 < bound
    ensures r.Some? ==> r.value < bound
  {
    var digits := if s != [] && s[0] == '+' then s[1..] else s;
    if digits == [] then None else ParseDigits(digits, 0, bound)
  }

  /** s is a notation of n: an optional plus sign, then digits of that value. */
  predicate Denotes(s: string, n: nat) {
    var digits := if s != [] && s[0] == '+' then s[1..] else s;
    digits != [] && AllDigits(digits) && ReadFrom(0, digits) == n
  }

  lemma {:induction false} ReadGrows(acc: nat, s: string)
    requires AllDigits(s)
    ensures acc <= ReadFrom(acc, s)
    decreases |s|
  {
    if s != [] {
      ReadGrows(acc * 10 + Value(s[0]), s[1..]);
    }
  }

  lemma {:induction false} ParseDigitsReads(s: string, acc: nat, bound: nat)
    requires acc < bound
    ensures ParseDigits(s, acc, bound)
         == if AllDigits(s) && ReadFrom(acc, s) < bound then Some(ReadFrom(acc, s)) else None
  {
    if s != [] && IsDigit(s[0]) {
      var next := acc * 10 + Value(s[0]);
      assert AllDigits(s[1..]) <==> AllDigits(s) by {
        assert forall i :: 1 <= i < |s| ==> s[i] == s[1..][i - 1];
      }
      if next < bound {
        ParseDigitsReads(s[1..], next, bound);
      } else if AllDigits(s) {
        ReadGrows(next, s[1..]);
      }
    }
  }

  /** Parsing succeeds on exactly the notations of numbers within the bound. */
  lemma ParseUnsignedReads(s: string, bound: nat, n: nat)
    requires 0 < bound
    ensures ParseUnsigned(s, bound) == Some(n) <==> n < bound && Denotes(s, n)
  {
    var digits := if s != [] && s[0] == '+' then s[1..] else s;
    ParseDigitsReads(digits, 0, bound);
  }

  lemma ShowDenotes(n: nat)
    ensures Denotes(Show(n), n)
  {
    ReadShow(n);
  }

  /** No plus sign, and no zero in front of other digits. */
  predicate Canonical(s: string) {
    (s != [] ==> s[0] != '+') && (1 < |s| ==> s[0] != '0')
  }

  lemma {:induction false} ShowIsCanonical(n: nat)
    ensures Canonical(Show(n)) && (0 < n ==> Show(n)[0] != '0')
  {
    if 10 <= n {
      ShowIsCanonical(n / 10);
      assert Show(n)[0] == Show(n / 10)[0];
    }
  }

  lemma LastDigit(init: string, last: char)
    requires AllDigits(init) && IsDigit(last)
    ensures AllDigits(init + [last]) && ReadFrom(0, init + [last]) == ReadFrom(0, init) * 10 + Value(last)
  {
    ReadAppend(0, init, [last]);
    assert ReadFrom(ReadFrom(0, init), [last]) == ReadFrom(ReadFrom(0, init) * 10 + Value(last), []);
  }

  lemma LeadingDigit(s: string)
    requires s != [] && AllDigits(s) && s[0] != '0'
    ensures 0 < ReadFrom(0, s)
  {
    ReadGrows(Value(s[0]), s[1..]);
  }

  /** Digits without a leading zero are what Show prints for their value. */
  lemma {:induction false} DigitsAreShown(s: string)
    requires s != [] && AllDigits(s) && (1 < |s| ==> s[0] != '0')
    ensures s == Show(ReadFrom(0, s))
  {
    var init, last := s[..|s| - 1], s[|s| - 1];
    assert s == init + [last];
    LastDigit(init, last);
    if init == [] {
      assert ReadFrom(0, init) == 0;
    } else {
      DigitsAreShown(init);
      LeadingDigit(init);
      ShowSnoc(ReadFrom(0, init), last);
    }
  }

  lemma ShowSnoc(n: nat, last: char)
    requires 0 < n && IsDigit(last)
    ensures Show(n * 10 + Value(last)) == Show(n) + [last]
  {
    var m := n * 10 + Value(last);
    assert m / 10 == n && m % 10 == Value(last);
  }

  /** Among the notations of n exactly the canonical one is what Show prints. */
  lemma CanonicalIffShown(s: string, n: nat)
    requires Denotes(s, n)
    ensures Canonical(s) <==> s == Show(n)
  {
    ShowIsCanonical(n);
    if Canonical(s) {
      DigitsAreShown(s);
    }
  }

  /** A number is shown by a minus sign if it is negative, and the decimal notation of its
      magnitude without leading zeros. */
  lemma ShowIntDenotes(i: int)
    ensures var digits := if i < 0 then ShowInt(i)[1..] else ShowInt(i);
      && (i < 0 <==> "-" <= ShowInt(i))
      && Denotes(digits, if i < 0 then -i else i)
      && Canonical(digits)
  {
    ShowDenotes(if i < 0 then -i else i);
    ShowIsCanonical(if i < 0 then -i else i);
    assert i < 0 ==> ShowInt(i)[1..] == Show(-i);
  }

  // ── Splitting ───────────────────────────────────────────────────────

  function Split(s: string, separator: char): (parts: seq<string>)
    ensures parts != []
  {
    if s == [] then [""]
    else
      var rest := Split(s[1..], separator);
      if s[0] == separator then [""] + rest else [[s[0]] + rest[0]] + rest[1..]
  }

  function Join(parts: seq<string>, separator: char): string {
    if parts == [] then ""
    else if |parts| == 1 then parts[0]
    else parts[0] + [separator] + Join(parts[1..], separator)
  }

  /** A character in front of the first part stands in front of the whole. */
  lemma JoinCons(c: char, parts: seq<string>, separator: char)
    requires parts != []
    ensures Join([[c] + parts[0]] + parts[1..], separator) == [c] + Join(parts, separator)
  {
    var longer := [[c] + parts[0]] + parts[1..];
    assert longer[1..] == parts[1..];
    if |parts| > 1 {
      var rest := Join(parts[1..], separator);
      PrefixSum([c], parts[0], [separator], rest, []);
    }
  }

  lemma JoinEmptyFirst(parts: seq<string>, separator: char)
    requires parts != []
    ensures Join([""] + parts, separator) == [separator] + Join(parts, separator)
  {
    assert ([""] + parts)[1..] == parts;
  }

  ghost predicate Without(parts: seq<string>, separator: char) {
    forall i :: 0 <= i < |parts| ==> separator !in parts[i]
  }

  lemma {:induction false} JoinSplit(s: string, separator: char)
    ensures Join(Split(s, separator), separator) == s
    ensures Without(Split(s, separator), separator)
  {
    if s != [] {
      var rest := Split(s[1..], separator);
      JoinSplit(s[1..], separator);
      assert s == [s[0]] + s[1..];
      if s[0] == separator {
        JoinEmptyFirst(rest, separator);
      } else {
        JoinCons(s[0], rest, separator);
      }
    }
  }

  lemma {:induction false} SplitPlain(s: string, separator: char)
    requires separator !in s
    ensures Split(s, separator) == [s]
  {
    if s != [] {
      SplitPlain(s[1..], separator);
      assert [s[0]] + s[1..] == s;
    }
  }

  lemma {:induction false} SplitFirst(first: string, separator: char, rest: string)
    requires separator !in first
    ensures Split(first + [separator] + rest, separator) == [first] + Split(rest, separator)
  {
    var s := first + [separator] + rest;
    if first == [] {
      assert s[1..] == rest;
    } else {
      SplitFirst(first[1..], separator, rest);
      assert s[1..] == first[1..] + [separator] + rest;
      assert [s[0]] + first[1..] == first;
    }
  }

  lemma {:induction false} SplitJoin(parts: seq<string>, separator: char)
    requires parts != [] && forall i :: 0 <= i < |parts| ==> separator !in parts[i]
    ensures Split(Join(parts, separator), separator) == parts
  {
    if |parts| == 1 {
      SplitPlain(parts[0], separator);
    } else {
      SplitJoin(parts[1..], separator);
      SplitFirst(parts[0], separator, Join(parts[1..], separator));
      assert parts == [parts[0]] + parts[1..];
    }
  }
}
