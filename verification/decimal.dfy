/** Zero-padded decimal fields, the part of `strftime` the script uses:
    four digits for `%Y`, two for `%m`, `%d`, `%H`, `%M` and `%S`. */
module Decimal {

  predicate IsDigit(c: char) {
    '0' <= c <= '9'
  }

  predicate AllDigits(s: string) {
    forall i :: 0 <= i < |s| ==> IsDigit(s[i])
  }

  function DigitChar(d: int): (c: char)
    requires 0 <= d <= 9
    ensures IsDigit(c)
  {
    ('0' as int + d) as char
  }

  function DigitValue(c: char): (d: int)
    requires IsDigit(c)
    ensures 0 <= d <= 9
    ensures DigitChar(d) == c
  {
    c as int - '0' as int
  }

  /** The number a two-digit field denotes. */
  function Value2(s: string): (n: int)
    requires |s| == 2 && AllDigits(s)
    ensures 0 <= n < 100
  {
    DigitValue(s[0]) * 10 + DigitValue(s[1])
  }

  /** The number a four-digit field denotes. */
  function Value4(s: string): (n: int)
    requires |s| == 4 && AllDigits(s)
    ensures 0 <= n < 10000
  {
    Value2(s[..2]) * 100 + Value2(s[2..])
  }

  /** `n` in two digits with a leading zero below ten; reads back as `n`. */
  function Pad2(n: int): (r: string)
    requires 0 <= n < 100
    ensures |r| == 2 && AllDigits(r)
    ensures Value2(r) == n
  {
    [DigitChar(n / 10), DigitChar(n % 10)]
  }

  /** `n` in four digits with leading zeros; reads back as `n`. */
  function Pad4(n: int): (r: string)
    requires 0 <= n < 10000
    ensures |r| == 4 && AllDigits(r)
    ensures Value4(r) == n
  {
    var r := Pad2(n / 100) + Pad2(n % 100);
    assert r[..2] == Pad2(n / 100) && r[2..] == Pad2(n % 100);
    r
  }

  /** A two-digit field is the padding of its own value. */
  lemma Pad2Value(s: string)
    requires |s| == 2 && AllDigits(s)
    ensures Pad2(Value2(s)) == s
  {
    var a, b := DigitValue(s[0]), DigitValue(s[1]);
    assert (a * 10 + b) / 10 == a && (a * 10 + b) % 10 == b;
  }

  /** A four-digit field is the padding of its own value. */
  lemma Pad4Value(s: string)
    requires |s| == 4 && AllDigits(s)
    ensures Pad4(Value4(s)) == s
  {
    var hi, lo := s[..2], s[2..];
    Pad2Value(hi);
    Pad2Value(lo);
    var n := Value4(s);
    assert n / 100 == Value2(hi) && n % 100 == Value2(lo);
    assert hi + lo == s;
  }
}
