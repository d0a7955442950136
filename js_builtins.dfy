/**
 * The JavaScript built-ins the core relies on: the `length` of a string
 * (counted in UTF-16 code units), the global `Number(...)` conversion of a
 * string, and the first piece of `String.prototype.split(" ")`.
 *
 * A JavaScript number is modelled as an exact real or NaN; floating-point
 * rounding is not modelled.
 */
module JsBuiltins {

  /** A JavaScript number value: a finite (exact) real, or NaN. */
  datatype Number = Finite(value: real) | NaN

  /** The first code point that UTF-16 encodes as a surrogate pair. */
  const FirstSupplementary: char := '\U{10000}'

  /**
   * `s.length`: JavaScript counts UTF-16 code units, so a character outside
   * the Basic Multilingual Plane (an emoji, say) counts twice.
   */
  function Utf16Length(s: string): (n: nat)
    ensures |s| <= n <= 2 * |s|
    ensures (forall i :: 0 <= i < |s| ==> s[i] < FirstSupplementary) ==> n == |s|
    ensures (forall i :: 0 <= i < |s| ==> s[i] >= FirstSupplementary) ==> n == 2 * |s|
  {
    if s == [] then 0
    else (if s[0] < FirstSupplementary then 1 else 2) + Utf16Length(s[1..])
  }

  /** Code-unit lengths add up over concatenation. */
  lemma {:induction false} Utf16LengthAppend(a: string, b: string)
    ensures Utf16Length(a + b) == Utf16Length(a) + Utf16Length(b)
  {
    if a == [] {
      assert a + b == b;
    } else {
      assert (a + b)[0] == a[0] && (a + b)[1..] == a[1..] + b;
      Utf16LengthAppend(a[1..], b);
    }
  }

  /** JavaScript `a + b` on numbers: NaN absorbs. */
  function Plus(a: Number, b: Number): Number
  {
    if a.Finite? && b.Finite? then Finite(a.value + b.value) else NaN
  }

  /** JavaScript `a / n` for a positive integer divisor: NaN absorbs. */
  function DivideBy(a: Number, n: nat): Number
    requires n > 0
  {
    if a.Finite? then Finite(a.value / n as real) else NaN
  }

  /** The index of the first occurrence of `c` in `s`, or `|s|` when there is none. */
  function IndexOf(s: string, c: char): (k: nat)
    ensures k <= |s|
    ensures k < |s| ==> s[k] == c
    ensures forall j :: 0 <= j < k ==> s[j] != c
  {
    if s == [] then 0
    else if s[0] == c then 0
    else 1 + IndexOf(s[1..], c)
  }

  /** `s.split(" ")[0]`: everything before the first space, or all of `s`. */
  function FirstWord(s: string): (w: string)
    ensures ' ' !in w
    ensures w <= s
    ensures |w| < |s| ==> s[|w|] == ' '
  {
    s[..IndexOf(s, ' ')]
  }

  predicate IsDigit(c: char)
  {
    '0' <= c <= '9'
  }

  predicate AllDigits(s: string)
  {
    forall i :: 0 <= i < |s| ==> IsDigit(s[i])
  }

  function DigitValue(c: char): nat
    requires IsDigit(c)
  {
    c as int - '0' as int
  }

  function DigitChar(d: nat): (c: char)
    requires d < 10
    ensures IsDigit(c) && DigitValue(c) == d
  {
    ('0' as int + d) as char
  }

  /** The value of a string of decimal digits, most significant digit first. */
  function DigitsValue(s: string): nat
    requires AllDigits(s)
  {
    if s == [] then 0 else 10 * DigitsValue(s[..|s| - 1]) + DigitValue(s[|s| - 1])
  }

  function Pow10(k: nat): (p: nat)
    ensures p > 0
  {
    if k == 0 then 1 else 10 * Pow10(k - 1)
  }

  /**
   * `Number(s)` for the decimal forms the watched-movie fields use:
   * the empty string is 0, a run of digits is its value, digits with one
   * decimal point between optional digit runs ("8.6", "5.", ".5") is that
   * decimal, and everything else is NaN.
   */
  function ParseNumber(s: string): (r: Number)
    ensures s == "" ==> r == Finite(0.0)
    ensures AllDigits(s) ==> r == Finite(DigitsValue(s) as real)
    ensures r.Finite? ==> r.value >= 0.0
  {
    var k := IndexOf(s, '.');
    if k == |s| then
      if AllDigits(s) then Finite(DigitsValue(s) as real) else NaN
    else
      var whole, frac := s[..k], s[k + 1..];
      if AllDigits(whole) && AllDigits(frac) && |s| > 1 then
        Finite(DigitsValue(whole) as real + DigitsValue(frac) as real / Pow10(|frac|) as real)
      else NaN
  }

  /** The decimal rendering of a natural number, without leading zeros. */
  function NatToString(n: nat): string
  {
    if n < 10 then [DigitChar(n)] else NatToString(n / 10) + [DigitChar(n % 10)]
  }

  lemma {:induction false} NatToStringDigits(n: nat)
    ensures |NatToString(n)| > 0 && AllDigits(NatToString(n))
    ensures DigitsValue(NatToString(n)) == n
  {
    if n >= 10 {
      NatToStringDigits(n / 10);
      var s := NatToString(n);
      assert s[..|s| - 1] == NatToString(n / 10);
    }
  }

  /** Reading back the decimal rendering of `n` gives `n`. */
  lemma ParseNatToString(n: nat)
    ensures ParseNumber(NatToString(n)) == Finite(n as real)
  {
    NatToStringDigits(n);
    var s := NatToString(n);
    assert forall j :: 0 <= j < |s| ==> s[j] != '.' by {
      forall j | 0 <= j < |s| ensures s[j] != '.' { assert IsDigit(s[j]); }
    }
  }

  /** A string holding a character that is neither a digit nor '.' is NaN. */
  lemma ParseForeignCharIsNaN(s: string, i: nat)
    requires i < |s| && !IsDigit(s[i]) && s[i] != '.'
    ensures ParseNumber(s) == NaN
  {
    var k := IndexOf(s, '.');
    if k < |s| {
      if i < k {
        assert s[..k][i] == s[i];
      } else {
        assert i != k;
        assert s[k + 1..][i - k - 1] == s[i];
      }
    }
  }

  /** A string with two decimal points is NaN. */
  lemma ParseTwoDotsIsNaN(s: string, i: nat, j: nat)
    requires i < j < |s| && s[i] == '.' && s[j] == '.'
    ensures ParseNumber(s) == NaN
  {
    var k := IndexOf(s, '.');
    assert k <= i;
    assert s[k + 1..][j - k - 1] == s[j];
  }

  /** The first word of "<digits> <rest>" is the digits. */
  lemma FirstWordOfPrefix(w: string, rest: string)
    requires ' ' !in w
    ensures FirstWord(w + " " + rest) == w
  {
    var s := w + " " + rest;
    assert forall j :: 0 <= j < |w| ==> s[j] == w[j];
    assert s[|w|] == ' ';
  }
}
