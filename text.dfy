/**
 * The string operations the screens use: `toLowerCase`, `includes`, `trim`,
 * the `\s` character class, `join`, and the decimal rendering of numbers in
 * template literals and `toFixed(2)`.
 */
module Text {

  /** ECMAScript white space and line terminators: what `\s` matches and what `trim` strips. */
  predicate IsWhitespace(c: char) {
    var n := c as int;
    (9 <= n <= 13) || n == 0x20 || n == 0xA0 || n == 0x1680 || (0x2000 <= n <= 0x200A)
    || n == 0x2028 || n == 0x2029 || n == 0x202F || n == 0x205F || n == 0x3000 || n == 0xFEFF
  }

  predicate IsUpperAscii(c: char) {
    'A' <= c <= 'Z'
  }

  predicate IsDigit(c: char) {
    '0' <= c <= '9'
  }

  /** `toLowerCase` on one character (letters A to Z; every other character is kept). */
  function LowerChar(c: char): char {
    if IsUpperAscii(c) then (c as int + 32) as char else c
  }

  /** `s.toLowerCase()`: same length, each character lowered on its own. */
  function ToLower(s: string): (r: string)
    ensures |r| == |s|
    ensures forall i :: 0 <= i < |s| ==> r[i] == LowerChar(s[i])
    ensures forall i :: 0 <= i < |s| ==> !IsUpperAscii(r[i])
  {
    seq(|s|, i requires 0 <= i < |s| => LowerChar(s[i]))
  }

  lemma ToLowerIdempotent(s: string)
    ensures ToLower(ToLower(s)) == ToLower(s)
  {
  }

  lemma ToLowerConcat(a: string, b: string)
    ensures ToLower(a + b) == ToLower(a) + ToLower(b)
  {
  }

  /** Lowering never creates or removes white space. */
  lemma LowerCharKeepsWhitespace(c: char)
    ensures IsWhitespace(LowerChar(c)) == IsWhitespace(c)
  {
  }

  /** `sub` sits in `s` starting at index `i`. */
  ghost predicate OccursAt(s: string, sub: string, i: int) {
    0 <= i && i + |sub| <= |s| && s[i..i + |sub|] == sub
  }

  /** `s.includes(sub)`: true exactly when `sub` occurs somewhere in `s` (always, for an empty `sub`). */
  function Includes(s: string, sub: string): (b: bool)
    ensures b <==> exists i :: OccursAt(s, sub, i)
    decreases |s|
  {
    if |sub| > |s| then false
    else if s[..|sub|] == sub then
      assert OccursAt(s, sub, 0);
      true
    else
      var b := Includes(s[1..], sub);
      assert forall i :: OccursAt(s[1..], sub, i) ==> OccursAt(s, sub, i + 1) by {
        forall i | OccursAt(s[1..], sub, i) ensures OccursAt(s, sub, i + 1) {
          assert s[1..][i..i + |sub|] == s[i + 1..i + 1 + |sub|];
        }
      }
      assert forall i :: OccursAt(s, sub, i) ==> OccursAt(s[1..], sub, i - 1) by {
        forall i | OccursAt(s, sub, i) ensures OccursAt(s[1..], sub, i - 1) {
          assert i != 0;
          assert s[1..][i - 1..i - 1 + |sub|] == s[i..i + |sub|];
        }
      }
      b
  }

  /** `name.toLowerCase().includes(query.toLowerCase())`: the search boxes' case-insensitive match. */
  predicate Matches(name: string, query: string) {
    Includes(ToLower(name), ToLower(query))
  }

  /** Lowering the query first changes no match. */
  lemma MatchesLoweredQuery(name: string, query: string)
    ensures Matches(name, ToLower(query)) == Matches(name, query)
  {
    ToLowerIdempotent(query);
  }

  /** Nothing but the empty query occurs in an empty name. */
  lemma MatchesEmptyName(query: string)
    ensures Matches("", query) <==> query == ""
  {
    if Matches("", query) {
      var i :| OccursAt(ToLower(""), ToLower(query), i);
    }
    if query == "" {
      assert OccursAt(ToLower(""), ToLower(query), 0);
    }
  }

  /** Number of white-space characters at the front of `s`. */
  function LeadingSpace(s: string): (k: nat)
    ensures k <= |s|
    ensures forall i :: 0 <= i < k ==> IsWhitespace(s[i])
    ensures k < |s| ==> !IsWhitespace(s[k])
    decreases |s|
  {
    if s != [] && IsWhitespace(s[0]) then
      var k := LeadingSpace(s[1..]);
      assert forall i :: 1 <= i < 1 + k ==> s[i] == s[1..][i - 1];
      1 + k
    else 0
  }

  /** Number of white-space characters at the end of `s`. */
  function TrailingSpace(s: string): (k: nat)
    ensures k <= |s|
    ensures forall i :: |s| - k <= i < |s| ==> IsWhitespace(s[i])
    ensures k < |s| ==> !IsWhitespace(s[|s| - 1 - k])
    decreases |s|
  {
    if s != [] && IsWhitespace(s[|s| - 1]) then 1 + TrailingSpace(s[..|s| - 1]) else 0
  }

  ghost predicate AllWhitespace(s: string) {
    forall i :: 0 <= i < |s| ==> IsWhitespace(s[i])
  }

  /**
   * `s.trim()`: the part of `s` that follows its leading white space and is
   * followed only by white space, starting and ending with a non-space character.
   */
  function Trim(s: string): (r: string)
    ensures |r| <= |s|
    ensures r == [] || (!IsWhitespace(r[0]) && !IsWhitespace(r[|r| - 1]))
    ensures r == [] <==> AllWhitespace(s)
    ensures OccursAt(s, r, LeadingSpace(s))
    ensures forall i :: LeadingSpace(s) + |r| <= i < |s| ==> IsWhitespace(s[i])
  {
    var a := LeadingSpace(s);
    var t := s[a..];
    var r := t[..|t| - TrailingSpace(t)];
    assert s[a..a + |r|] == r;
    assert r == [] ==> a == |s| by {
      if a < |s| {
        assert TrailingSpace(t) < |t|;
      }
    }
    r
  }

  /** Trimming is idempotent. */
  lemma TrimIdempotent(s: string)
    ensures Trim(Trim(s)) == Trim(s)
  {
    var r := Trim(s);
    if r != [] {
      assert LeadingSpace(r) == 0;
      assert TrailingSpace(r) == 0;
    }
  }

  lemma {:induction false} LeadingSpaceLower(s: string)
    ensures LeadingSpace(ToLower(s)) == LeadingSpace(s)
    decreases |s|
  {
    if s != [] {
      LowerCharKeepsWhitespace(s[0]);
      if IsWhitespace(s[0]) {
        assert ToLower(s)[1..] == ToLower(s[1..]);
        LeadingSpaceLower(s[1..]);
      }
    }
  }

  lemma {:induction false} TrailingSpaceLower(s: string)
    ensures TrailingSpace(ToLower(s)) == TrailingSpace(s)
    decreases |s|
  {
    if s != [] {
      LowerCharKeepsWhitespace(s[|s| - 1]);
      if IsWhitespace(s[|s| - 1]) {
        assert ToLower(s)[..|s| - 1] == ToLower(s[..|s| - 1]);
        TrailingSpaceLower(s[..|s| - 1]);
      }
    }
  }

  /** What is left once the leading and then the trailing white space is cut off. */
  lemma TrimParts(s: string)
    ensures var t := s[LeadingSpace(s)..]; Trim(s) == t[..|t| - TrailingSpace(t)]
  {
  }

  lemma ToLowerDrop(s: string, a: nat)
    requires a <= |s|
    ensures ToLower(s)[a..] == ToLower(s[a..])
  {
  }

  lemma ToLowerTake(s: string, n: nat)
    requires n <= |s|
    ensures ToLower(s)[..n] == ToLower(s[..n])
  {
  }

  /** Trimming and lowering commute, since lowering keeps white space where it was. */
  lemma TrimLowerCommute(s: string)
    ensures Trim(ToLower(s)) == ToLower(Trim(s))
  {
    var a := LeadingSpace(s);
    var t := s[a..];
    LeadingSpaceLower(s);
    ToLowerDrop(s, a);
    TrailingSpaceLower(t);
    var n := |t| - TrailingSpace(t);
    TrimParts(s);
    TrimParts(ToLower(s));
    ToLowerTake(t, n);
  }

  /** `parts.join(sep)`. */
  function Join(parts: seq<string>, sep: string): string
    decreases |parts|
  {
    if parts == [] then ""
    else if |parts| == 1 then parts[0]
    else Join(parts[..|parts| - 1], sep) + sep + parts[|parts| - 1]
  }

  lemma {:induction false} JoinWithout(parts: seq<string>, sep: string, c: char)
    requires c !in sep
    requires forall i :: 0 <= i < |parts| ==> c !in parts[i]
    ensures c !in Join(parts, sep)
    decreases |parts|
  {
    if |parts| > 1 {
      JoinWithout(parts[..|parts| - 1], sep, c);
    }
  }

  /** Index of the first `c` in `s`, or `|s|` when there is none (`indexOf`, with "none" as the length). */
  function IndexOf(s: string, c: char): (k: nat)
    ensures k <= |s| && c !in s[..k]
    ensures k < |s| ==> s[k] == c
    decreases |s|
  {
    if s == [] || s[0] == c then 0
    else
      var k := 1 + IndexOf(s[1..], c);
      assert s[..k] == [s[0]] + s[1..][..k - 1];
      k
  }

  /** A text that does not hold `c` is followed by the first `c`. */
  lemma {:induction false} IndexOfAfter(a: string, c: char, rest: string)
    requires c !in a
    ensures IndexOf(a + [c] + rest, c) == |a|
    decreases |a|
  {
    if a != [] {
      assert a[0] in a;
      assert (a + [c] + rest)[1..] == a[1..] + [c] + rest;
      assert c !in a[1..];
      IndexOfAfter(a[1..], c, rest);
    }
  }

  /** Text appended after an occurrence of `c` does not move the first one. */
  lemma {:induction false} IndexOfPrefix(x: string, y: string, c: char)
    requires IndexOf(x, c) < |x|
    ensures IndexOf(x + y, c) == IndexOf(x, c)
    decreases |x|
  {
    if x[0] != c {
      assert (x + y)[1..] == x[1..] + y;
      IndexOfPrefix(x[1..], y, c);
    }
  }

  function DigitChar(d: nat): (c: char)
    requires d < 10
    ensures IsDigit(c)
  {
    ('0' as int + d) as char
  }

  /** The decimal numeral of `n` (as `${n}` renders a non-negative integer): digits only, no leading zero. */
  function NatToString(n: nat): (r: string)
    ensures |r| >= 1
    ensures forall i :: 0 <= i < |r| ==> IsDigit(r[i])
    ensures r[0] == '0' ==> n == 0 && |r| == 1
    decreases n
  {
    if n < 10 then [DigitChar(n)] else NatToString(n / 10) + [DigitChar(n % 10)]
  }

  /** The value a string of decimal digits denotes. */
  function DigitsValue(s: string): nat
    requires forall i :: 0 <= i < |s| ==> IsDigit(s[i])
    decreases |s|
  {
    if s == [] then 0
    else
      assert IsDigit(s[|s| - 1]);
      10 * DigitsValue(s[..|s| - 1]) + (s[|s| - 1] as int - '0' as int)
  }

  /** Reading the numeral back gives the number. */
  lemma {:induction false} NatToStringValue(n: nat)
    ensures DigitsValue(NatToString(n)) == n
    decreases n
  {
    if n >= 10 {
      NatToStringValue(n / 10);
      var r := NatToString(n);
      assert r[..|r| - 1] == NatToString(n / 10);
    }
  }

  /** `${i}` for an integer: a minus sign for negatives, then the numeral of the magnitude. */
  function IntToString(i: int): (r: string)
    ensures |r| >= 1
    ensures r[0] == '-' <==> i < 0
    ensures i >= 0 ==> r == NatToString(i)
    ensures i < 0 ==> r[1..] == NatToString(-i)
  {
    if i < 0 then "-" + NatToString(-i) else NatToString(i)
  }

  /** The two digits of a number below a hundred, with a leading zero. */
  function TwoDigits(m: nat): (b: string)
    requires m < 100
    ensures |b| == 2 && IsDigit(b[0]) && IsDigit(b[1])
  {
    [DigitChar(m / 10), DigitChar(m % 10)]
  }

  /**
   * `(cents / 100).toFixed(2)` for an amount held in hundredths: sign, whole part,
   * a point, and exactly two digits of hundredths.
   */
  function FixedTwo(cents: int): (r: string)
    ensures |r| >= 4 && r[|r| - 3] == '.' && IsDigit(r[|r| - 2]) && IsDigit(r[|r| - 1])
    ensures r[0] == '-' <==> cents < 0
  {
    var n := if cents < 0 then -cents else cents;
    var whole := NatToString(n / 100) + "." + TwoDigits(n % 100);
    if cents < 0 then "-" + whole else whole
  }

  /** Appending two digits multiplies the value by a hundred and adds theirs. */
  lemma DigitsAppendTwo(a: string, b: string)
    requires forall i :: 0 <= i < |a| ==> IsDigit(a[i])
    requires |b| == 2 && IsDigit(b[0]) && IsDigit(b[1])
    ensures forall i :: 0 <= i < |a + b| ==> IsDigit((a + b)[i])
    ensures DigitsValue(a + b) == 100 * DigitsValue(a) + DigitsValue(b)
  {
    var d0, d1 := b[0] as int - '0' as int, b[1] as int - '0' as int;
    var a0 := a + [b[0]];
    assert (a + b)[..|a + b| - 1] == a0;
    assert DigitsValue(a + b) == 10 * DigitsValue(a0) + d1;
    assert a0[..|a0| - 1] == a;
    assert DigitsValue(a0) == 10 * DigitsValue(a) + d0;
    assert b[..1] == [b[0]] && [b[0]][..0] == [];
    assert DigitsValue([b[0]]) == d0;
    assert DigitsValue(b) == 10 * d0 + d1;
  }

  /** `FixedTwo` is the sign, the numeral of the whole part, a point, and the two digits of hundredths. */
  lemma FixedTwoParts(cents: int)
    ensures var r, n := FixedTwo(cents), (if cents < 0 then -cents else cents);
      var s := if cents < 0 then 1 else 0;
      && r[s..|r| - 3] == NatToString(n / 100)
      && r[|r| - 2..] == TwoDigits(n % 100)
  {
  }

  /** The whole part's numeral followed by the two digits of hundredths reads back as the amount. */
  lemma MagnitudeDigits(n: nat)
    ensures var d := NatToString(n / 100) + TwoDigits(n % 100);
      && (forall i :: 0 <= i < |d| ==> IsDigit(d[i]))
      && DigitsValue(d) == n
  {
    var a, b := NatToString(n / 100), TwoDigits(n % 100);
    DigitsAppendTwo(a, b);
    NatToStringValue(n / 100);
    DigitsOfTwo(n % 100);
    assert 100 * (n / 100) + n % 100 == n;
  }

  /**
   * The digits of `FixedTwo(cents)`, read without the sign and the point, denote the
   * magnitude of the amount in hundredths.
   */
  lemma FixedTwoValue(cents: int)
    ensures var r, s := FixedTwo(cents), (if cents < 0 then 1 else 0);
      var d := r[s..|r| - 3] + r[|r| - 2..];
      && (forall i :: 0 <= i < |d| ==> IsDigit(d[i]))
      && DigitsValue(d) == if cents < 0 then -cents else cents
  {
    var n := if cents < 0 then -cents else cents;
    FixedTwoParts(cents);
    MagnitudeDigits(n);
  }

  /** The two digits of a number below a hundred read back as that number. */
  lemma DigitsOfTwo(m: nat)
    requires m < 100
    ensures DigitsValue(TwoDigits(m)) == m
  {
    var b := TwoDigits(m);
    assert b[0] as int - '0' as int == m / 10 && b[1] as int - '0' as int == m % 10;
    assert b[..1] == [b[0]] && [b[0]][..0] == [];
    assert DigitsValue([b[0]]) == m / 10;
  }

  lemma NumeralsHaveNoNewline(i: int)
    ensures '\n' !in IntToString(i)
  {
  }
}
