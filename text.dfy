/** The string helpers the template relies on: Spring's `StringUtils.hasText`,
    `String.contains`, and the `%d` conversion of `String.format` together with
    a parser that inverts it. */
module Text {
  import opened Wrappers

  /** `Character.isWhitespace`: the Unicode space, line and paragraph
      separators other than the non-breaking ones (U+00A0, U+2007, U+202F),
      and the controls U+0009..U+000D and U+001C..U+001F. */
  predicate IsWhitespace(c: char) {
    || ('\U{9}' <= c <= '\U{D}')
    || ('\U{1C}' <= c <= '\U{1F}')
    || c == ' '
    || c == '\U{1680}'
    || ('\U{2000}' <= c <= '\U{2006}')
    || ('\U{2008}' <= c <= '\U{200A}')
    || c == '\U{2028}'
    || c == '\U{2029}'
    || c == '\U{205F}'
    || c == '\U{3000}'
  }

  /** `StringUtils.hasText`: non-empty and holding a character that is not whitespace. */
  predicate HasText(s: string) {
    exists i | 0 <= i < |s| :: !IsWhitespace(s[i])
  }

  /** `String.contains`: `sub` occurs in `s` at some position. */
  predicate Contains(s: string, sub: string) {
    exists i | 0 <= i <= |s| - |sub| :: OccursAt(s, sub, i)
  }

  predicate OccursAt(s: string, sub: string, i: int)
    requires 0 <= i <= |s| - |sub|
  {
    s[i..i + |sub|] == sub
  }

  predicate IsDigit(c: char) {
    '0' <= c <= '9'
  }

  predicate AllDigits(s: string) {
    forall i | 0 <= i < |s| :: IsDigit(s[i])
  }

  function DigitChar(d: nat): (c: char)
    requires d < 10
    ensures IsDigit(c)
  {
    "0123456789"[d]
  }

  function DigitValue(c: char): (d: nat)
    requires IsDigit(c)
    ensures d < 10
  {
    (c - '0') as nat
  }

  /** The decimal digits of `n`, most significant first, with no leading zero. */
  function Digits(n: nat): (r: string)
    ensures |r| > 0 && AllDigits(r)
    ensures |r| > 1 ==> r[0] != '0'
    ensures n < 10 <==> |r| == 1
  {
    if n < 10 then [DigitChar(n)] else Digits(n / 10) + [DigitChar(n % 10)]
  }

  /** The value of a string of decimal digits. */
  function DigitsValue(s: string): nat
    requires AllDigits(s)
  {
    if |s| == 0 then 0 else DigitsValue(s[..|s| - 1]) * 10 + DigitValue(s[|s| - 1])
  }

  /** `String.format("%d", n)`: an optional minus sign followed by the digits of |n|. */
  function FormatDecimal(n: int): (r: string)
  {
    if n < 0 then "-" + Digits(-n) else Digits(n)
  }

  /** Reads back an optionally negative decimal integer; `None` for anything else. */
  function ParseDecimal(s: string): Option<int>
  {
    if |s| > 1 && s[0] == '-' && AllDigits(s[1..]) then
      var v: int := DigitsValue(s[1..]); Some(-v)
    else if |s| > 0 && AllDigits(s) then Some(DigitsValue(s))
    else None
  }

  lemma {:induction false} DigitsValueOfDigits(n: nat)
    ensures DigitsValue(Digits(n)) == n
  {
    if n >= 10 {
      var d := Digits(n / 10);
      var r := d + [DigitChar(n % 10)];
      assert r[..|r| - 1] == d;
      DigitsValueOfDigits(n / 10);
    }
  }

  /** A formatted integer is made of a sign and digits only, so it holds no
      path separator and no query delimiter, and it parses back to itself. */
  lemma {:induction false} FormatDecimalRoundTrip(n: int)
    ensures ParseDecimal(FormatDecimal(n)) == Some(n)
    ensures forall i | 0 <= i < |FormatDecimal(n)| :: FormatDecimal(n)[i] == '-' || IsDigit(FormatDecimal(n)[i])
  {
    var s := FormatDecimal(n);
    if n < 0 {
      var d := Digits(-n);
      assert s == "-" + d;
      assert s[1..] == d;
      DigitsValueOfDigits(-n);
      assert ParseDecimal(s) == Some(n);
      forall i | 0 <= i < |s| ensures s[i] == '-' || IsDigit(s[i]) {
        if i > 0 { assert s[i] == d[i - 1]; }
      }
    } else {
      DigitsValueOfDigits(n);
    }
  }
}
