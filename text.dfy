/** Facts about strings (sequences of characters) used by the query and
    endpoint builders: counting a character, prefixes, suffixes and
    occurrences of a pattern, and decimal rendering of a natural number. */
module Text {

  /** The number of occurrences of `c` in `s`, counted from the right so that
      appending one piece of text at a time is one unfolding. */
  function Count(s: string, c: char): nat
  {
    if s == [] then 0 else Count(s[..|s| - 1], c) + (if s[|s| - 1] == c then 1 else 0)
  }

  lemma {:induction false} CountAppend(a: string, b: string, c: char)
    ensures Count(a + b, c) == Count(a, c) + Count(b, c)
  {
    if b == [] {
      assert a + b == a;
    } else {
      var b' := b[..|b| - 1];
      assert (a + b)[..|a + b| - 1] == a + b';
      CountAppend(a, b', c);
    }
  }

  lemma {:induction false} CountAbsent(s: string, c: char)
    requires c !in s
    ensures Count(s, c) == 0
  {
    if s != [] {
      var s' := s[..|s| - 1];
      assert forall k :: 0 <= k < |s'| ==> s'[k] == s[k];
      CountAbsent(s', c);
    }
  }

  predicate StartsWith(s: string, t: string)
  {
    |t| <= |s| && s[..|t|] == t
  }

  predicate EndsWith(s: string, t: string)
  {
    |t| <= |s| && s[|s| - |t|..] == t
  }

  /** `t` occurs in `s` starting at index `i`. */
  predicate OccursAt(s: string, t: string, i: int)
  {
    0 <= i && i + |t| <= |s| && s[i..i + |t|] == t
  }

  predicate Contains(s: string, t: string)
  {
    exists i | 0 <= i <= |s| - |t| :: OccursAt(s, t, i)
  }

  lemma OccursInMiddle(a: string, b: string, c: string)
    ensures OccursAt(a + b + c, b, |a|)
  {
    assert (a + b + c)[|a|..|a| + |b|] == b;
  }

  lemma OccursAtEnd(a: string, b: string)
    ensures OccursAt(a + b, b, |a|)
  {
    assert (a + b)[|a|..|a| + |b|] == b;
  }

  lemma OccursInPrefix(x: string, y: string, t: string, i: int)
    requires OccursAt(x, t, i)
    ensures OccursAt(x + y, t, i)
  {
    assert (x + y)[i..i + |t|] == x[i..i + |t|];
  }

  /** An occurrence of a non-empty pattern ends at an index holding the
      pattern's last character, and the text up to there ends with the pattern. */
  lemma OccurrenceEnd(s: string, t: string, i: int)
    requires OccursAt(s, t, i) && |t| > 0
    ensures s[i + |t| - 1] == t[|t| - 1]
    ensures EndsWith(s[..i + |t|], t)
  {
    assert s[..i + |t|][i..] == s[i..i + |t|];
  }

  /** A text ending with `t` agrees with `t` on its last characters. */
  lemma SuffixChar(s: string, t: string, j: int)
    requires 1 <= j <= |t| && j <= |s|
    ensures EndsWith(s, t) ==> s[|s| - j] == t[|t| - j]
  {
    if EndsWith(s, t) {
      assert s[|s| - |t|..][|t| - j] == s[|s| - j];
    }
  }

  /** Two suffixes of one string: the shorter is a suffix of the longer. */
  lemma SuffixesNest(s: string, a: string, b: string)
    requires EndsWith(s, a) && EndsWith(s, b) && |b| <= |a|
    ensures EndsWith(a, b)
  {
    assert a[|a| - |b|..] == s[|s| - |b|..];
  }

  /** A pattern whose last character `c` occurs in `s` only as its last
      character can occur in `s` only as a suffix. */
  lemma OnlyAsSuffix(s: string, t: string, i: int)
    requires |t| > 0 && |s| > 0 && t[|t| - 1] !in s[..|s| - 1]
    requires OccursAt(s, t, i)
    ensures i == |s| - |t|
  {
    OccurrenceEnd(s, t, i);
  }

  /** Texts that agree around their middles have equal middles. */
  lemma SameMiddle(p: string, x: string, y: string, q: string)
    requires p + x + q == p + y + q
    ensures x == y
  {
    assert |x| == |y|;
    assert (p + x + q)[|p|..|p| + |x|] == x;
    assert (p + y + q)[|p|..|p| + |y|] == y;
  }

  // Decimal numerals

  predicate IsDigit(ch: char)
  {
    '0' <= ch <= '9'
  }

  predicate IsNumeral(s: string)
  {
    |s| > 0 && forall k :: 0 <= k < |s| ==> IsDigit(s[k])
  }

  function DigitChar(d: nat): (ch: char)
    requires d < 10
    ensures IsDigit(ch) && (ch as int) - ('0' as int) == d
  {
    (('0' as int) + d) as char
  }

  /** Decimal rendering of `n` without leading zeros, all digits written
      out. JavaScript's template literals render a non-negative integer so
      below 10^21; from 10^21 on they switch to exponent notation. */
  function NatToString(n: nat): (r: string)
    ensures IsNumeral(r)
    ensures n >= 10 <==> |r| > 1
    decreases n
  {
    if n < 10 then [DigitChar(n)] else NatToString(n / 10) + [DigitChar(n % 10)]
  }

  /** The value of a decimal numeral. */
  function NumeralValue(s: string): nat
    requires IsNumeral(s)
    decreases |s|
  {
    var d := (s[|s| - 1] as int) - ('0' as int);
    if |s| == 1 then d else NumeralValue(s[..|s| - 1]) * 10 + d
  }

  lemma {:induction false} NumeralRoundTrip(n: nat)
    ensures NumeralValue(NatToString(n)) == n
    decreases n
  {
    if n >= 10 {
      var r := NatToString(n);
      assert r[..|r| - 1] == NatToString(n / 10);
      NumeralRoundTrip(n / 10);
    }
  }

  lemma NatToStringInjective(a: nat, b: nat)
    requires NatToString(a) == NatToString(b)
    ensures a == b
  {
    NumeralRoundTrip(a);
    NumeralRoundTrip(b);
  }

  /** Integers in decimal, as JavaScript's String() renders those of
      magnitude below 10^21 (larger ones it writes in exponent notation). */
  function IntToString(n: int): string
  {
    if n >= 0 then NatToString(n) else "-" + NatToString(-n)
  }
}
