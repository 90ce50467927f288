/** String helpers with Python's meaning: lexicographic `<=` on strings, ASCII
    `str.lower()`, `in` for substrings, `str.startswith`, `str.isdigit`. */
module Text {

  /** Python's `a <= b` on strings: the first differing character decides,
      and a proper prefix comes first. */
  predicate StrLe(a: string, b: string)
  {
    if a == [] then true
    else if b == [] then false
    else if a[0] != b[0] then a[0] < b[0]
    else StrLe(a[1..], b[1..])
  }

  lemma {:induction false} StrLeIsTotal(a: string, b: string)
    ensures StrLe(a, b) || StrLe(b, a)
  {
    if a != [] && b != [] && a[0] == b[0] {
      StrLeIsTotal(a[1..], b[1..]);
    }
  }

  lemma {:induction false} StrLeIsAntisymmetric(a: string, b: string)
    requires StrLe(a, b) && StrLe(b, a)
    ensures a == b
  {
    if a != [] && b != [] {
      StrLeIsAntisymmetric(a[1..], b[1..]);
      assert a == [a[0]] + a[1..] && b == [b[0]] + b[1..];
    }
  }

  lemma {:induction false} StrLeIsTransitive(a: string, b: string, c: string)
    requires StrLe(a, b) && StrLe(b, c)
    ensures StrLe(a, c)
  {
    if a != [] && b != [] && c != [] && a[0] == b[0] && b[0] == c[0] {
      StrLeIsTransitive(a[1..], b[1..], c[1..]);
    }
  }

  predicate IsAsciiDigit(c: char)
  {
    '0' <= c <= '9'
  }

  /** `str.isdigit()` restricted to ASCII: non-empty and every character a digit. */
  predicate IsDigitString(s: string)
  {
    |s| > 0 && forall i :: 0 <= i < |s| ==> IsAsciiDigit(s[i])
  }

  function DigitValue(c: char): (v: nat)
    requires IsAsciiDigit(c)
    ensures v < 10
  {
    (c - '0') as nat
  }

  /** The number a string of decimal digits denotes (0 for the empty string). */
  function DecimalValue(s: string): nat
    requires forall i :: 0 <= i < |s| ==> IsAsciiDigit(s[i])
  {
    if s == [] then 0
    else DecimalValue(s[..|s| - 1]) * 10 + DigitValue(s[|s| - 1])
  }

  function ToLowerChar(c: char): (r: char)
    ensures 'A' <= c <= 'Z' ==> r as int == c as int + 32
    ensures !('A' <= c <= 'Z') ==> r == c
  {
    if 'A' <= c <= 'Z' then (c as int + 32) as char else c
  }

  /** `str.lower()` on ASCII letters; other characters are kept. */
  function ToLower(s: string): (r: string)
    ensures |r| == |s|
    ensures forall i :: 0 <= i < |s| ==> r[i] == ToLowerChar(s[i])
  {
    if s == [] then [] else [ToLowerChar(s[0])] + ToLower(s[1..])
  }

  predicate StartsWith(s: string, prefix: string)
  {
    |prefix| <= |s| && s[..|prefix|] == prefix
  }

  /** Python's `needle in haystack` for strings. */
  predicate Contains(haystack: string, needle: string)
  {
    StartsWith(haystack, needle) || (haystack != [] && Contains(haystack[1..], needle))
  }

  function DigitChar(d: nat): (c: char)
    requires d < 10
    ensures IsAsciiDigit(c) && DigitValue(c) == d
  {
    ('0' as int + d) as char
  }

  /** `str(n)` for a natural number: its decimal digits, without leading zeros. */
  function Digits(n: nat): (s: string)
    ensures 0 < |s| && forall i :: 0 <= i < |s| ==> IsAsciiDigit(s[i])
    ensures n < 10 <==> |s| == 1
    decreases n
  {
    if n < 10 then [DigitChar(n)] else Digits(n / 10) + [DigitChar(n % 10)]
  }

  /** Reading back the digits of `n` gives `n`. */
  lemma {:induction false} DigitsRoundTrip(n: nat)
    ensures DecimalValue(Digits(n)) == n
    decreases n
  {
    if n >= 10 {
      DigitsRoundTrip(n / 10);
      var s := Digits(n);
      assert s[..|s| - 1] == Digits(n / 10);
    } else {
      assert Digits(n)[..0] == [];
    }
  }

  /** A number from 1000 to 9999, a four-digit year, prints as four characters. */
  lemma DigitsOfFourDigitNumber(n: nat)
    requires 1000 <= n <= 9999
    ensures |Digits(n)| == 4
  {
    assert |Digits(n / 1000)| == 1;
    assert |Digits(n / 100)| == 2;
    assert |Digits(n / 10)| == 3;
  }

  /** `str(n)` for any integer. */
  function IntToString(n: int): string
  {
    if n >= 0 then Digits(n) else "-" + Digits(-n)
  }
}
