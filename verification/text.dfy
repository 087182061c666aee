/**
 Character classes and the two string builders the identifiers are made of:
 the decimal rendering of a number in a template literal, and
 `generateRandomLetter`, which turns random draws into upper-case letters.
 */
module Text {

  import opened Regex

  predicate IsUpper(c: char) { 'A' <= c <= 'Z' }

  predicate IsDigit(c: char) { '0' <= c <= '9' }

  /** The class `[a-zA-Z0-9]`, stated directly. */
  predicate IsAsciiAlnum(c: char) { 'a' <= c <= 'z' || IsUpper(c) || IsDigit(c) }

  predicate AllUpper(s: string) { forall i :: 0 <= i < |s| ==> IsUpper(s[i]) }

  predicate AllDigits(s: string) { forall i :: 0 <= i < |s| ==> IsDigit(s[i]) }

  predicate AllAsciiAlnum(s: string) { forall i :: 0 <= i < |s| ==> IsAsciiAlnum(s[i]) }

  /** The bracket expression `[a-zA-Z0-9]` as the regular expressions write it. */
  const AsciiAlnumRanges: seq<Range> := [Range('a', 'z'), Range('A', 'Z'), Range('0', '9')]

  /** A character is in `[a-zA-Z0-9]` exactly when it is an ASCII letter or digit. */
  lemma AsciiAlnumRangesChar(c: char)
    ensures InClass(AsciiAlnumRanges, c) <==> IsAsciiAlnum(c)
  {
    var rest := AsciiAlnumRanges[1..];
    assert rest == [Range('A', 'Z'), Range('0', '9')];
    assert rest[1..] == [Range('0', '9')];
    assert InClass(rest[1..], c) <==> '0' <= c <= '9' by {
      assert rest[1..][1..] == [];
    }
  }

  /** The bracket expression `[a-zA-Z0-9]` accepts exactly the ASCII letters and digits. */
  lemma AsciiAlnumRangesExact(s: string)
    ensures AllInClass(AsciiAlnumRanges, s) <==> AllAsciiAlnum(s)
  {
    forall i | 0 <= i < |s|
      ensures InClass(AsciiAlnumRanges, s[i]) <==> IsAsciiAlnum(s[i])
    {
      AsciiAlnumRangesChar(s[i]);
    }
  }

  // ----- decimal numbers -----

  function DigitChar(d: nat): (c: char)
    requires d < 10
    ensures IsDigit(c)
  {
    ('0' as int + d) as char
  }

  function DigitValue(c: char): (d: nat)
    requires IsDigit(c)
    ensures d < 10
  {
    c as int - '0' as int
  }

  /**
   The decimal rendering of a non-negative number, as `${n}` produces it:
   digits only, with no leading zero except for zero itself.
   */
  function Decimal(n: nat): (r: string)
    ensures |r| >= 1 && AllDigits(r)
    ensures (r[0] == '0') <==> n == 0
    decreases n
  {
    if n < 10 then [DigitChar(n)]
    else Decimal(n / 10) + [DigitChar(n % 10)]
  }

  /** The number a string of decimal digits denotes (most significant first). */
  function DigitsValue(s: string): nat
    requires AllDigits(s)
  {
    if |s| == 0 then 0
    else DigitsValue(s[..|s| - 1]) * 10 + DigitValue(s[|s| - 1])
  }

  /** Reading back a rendered number gives the number. */
  lemma {:induction false} DigitsValueOfDecimal(n: nat)
    ensures DigitsValue(Decimal(n)) == n
    decreases n
  {
    var r := Decimal(n);
    if n >= 10 {
      DigitsValueOfDecimal(n / 10);
      assert r[..|r| - 1] == Decimal(n / 10);
    }
  }

  function Pow10(k: nat): (p: nat)
    ensures p >= 1
  {
    if k == 0 then 1 else 10 * Pow10(k - 1)
  }

  /**
   A string of `k` digits denotes a number below `10^k`, and at least
   `10^(k-1)` when its lead digit is not zero.
   */
  lemma {:induction false} DigitsValueBounds(s: string)
    requires |s| >= 1 && AllDigits(s)
    ensures DigitsValue(s) < Pow10(|s|)
    ensures s[0] != '0' ==> Pow10(|s| - 1) <= DigitsValue(s)
    decreases |s|
  {
    var prefix := s[..|s| - 1];
    if |s| > 1 {
      DigitsValueBounds(prefix);
      assert prefix[0] == s[0];
      var w := DigitsValue(prefix);
      assert w <= Pow10(|prefix|) - 1;
      assert w * 10 <= Pow10(|prefix|) * 10 - 10;
      assert s[0] != '0' ==> Pow10(|prefix| - 1) * 10 <= w * 10;
    }
  }

  /** Rendering the number a canonical digit string denotes gives that string back. */
  lemma {:induction false} DecimalOfDigitsValue(s: string)
    requires |s| >= 1 && AllDigits(s) && (s[0] != '0' || |s| == 1)
    ensures Decimal(DigitsValue(s)) == s
    decreases |s|
  {
    if |s| > 1 {
      var prefix := s[..|s| - 1];
      DigitsValueBounds(prefix);
      DecimalOfDigitsValue(prefix);
      var v := DigitsValue(s);
      assert v / 10 == DigitsValue(prefix) && v % 10 == DigitValue(s[|s| - 1]);
      assert s == prefix + [s[|s| - 1]];
    }
  }

  /** Numbers from 10 to 99 render with exactly two digits. */
  lemma DecimalTwoDigits(n: nat)
    requires 10 <= n <= 99
    ensures |Decimal(n)| == 2
  {
  }

  /** Numbers from 100 to 999 render with exactly three digits. */
  lemma DecimalThreeDigits(n: nat)
    requires 100 <= n <= 999
    ensures |Decimal(n)| == 3
  {
    DecimalTwoDigits(n / 10);
  }

  // ----- random letters -----

  /** Letter draws as `Math.floor(Math.random() * 26)` yields them: each in 0..25. */
  predicate LetterDrawsInRange(draws: seq<nat>)
  {
    forall i :: 0 <= i < |draws| ==> draws[i] < 26
  }

  /**
   `generateRandomLetter(len)`: `len` characters, the i-th with char code
   65 plus the i-th draw. The draws stand for the calls to `Math.random()`.
   */
  function RandomLetters(len: nat, draws: seq<nat>): (r: string)
    requires |draws| == len && LetterDrawsInRange(draws)
    ensures |r| == len && AllUpper(r)
  {
    seq(len, i requires 0 <= i < len => (65 + draws[i]) as char)
  }

  /** The draws that spell an upper-case string: the inverse of `RandomLetters`. */
  function LetterDraws(s: string): (draws: seq<nat>)
    requires AllUpper(s)
    ensures |draws| == |s| && LetterDrawsInRange(draws)
  {
    seq(|s|, i requires 0 <= i < |s| => (s[i] as int - 65) as nat)
  }

  /** The letters determine the draws that produced them. */
  lemma LetterDrawsOfRandomLetters(len: nat, draws: seq<nat>)
    requires |draws| == len && LetterDrawsInRange(draws)
    ensures LetterDraws(RandomLetters(len, draws)) == draws
  {
  }

  /** Every upper-case string of length `len` is produced by some draws. */
  lemma RandomLettersOfLetterDraws(s: string)
    requires AllUpper(s)
    ensures RandomLetters(|s|, LetterDraws(s)) == s
  {
  }
}
