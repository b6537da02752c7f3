/** The pieces of Python's string handling the converters rely on:
    `str(n)` of an integer, `str.zfill(width)`, the slice `s[:-k]`, and the
    value of a string of decimal digits (what `int(s)` and the `%j`, `%m`,
    `%d` directives of `strptime` read). */
module PyText {

  predicate IsDigit(c: char) { '0' <= c <= '9' }

  predicate AllDigits(s: string) { forall i :: 0 <= i < |s| ==> IsDigit(s[i]) }

  function DigitValue(c: char): nat
    requires IsDigit(c)
  {
    c as int - '0' as int
  }

  function Digit(n: nat): (c: char)
    requires n < 10
    ensures IsDigit(c) && DigitValue(c) == n
  {
    ('0' as int + n) as char
  }

  /** `str(n)` for a natural number: its decimal digits, most significant first. */
  function Decimal(n: nat): (s: string)
    ensures 1 <= |s| && AllDigits(s)
    ensures (s[0] == '0') == (n == 0)
    ensures n == 0 ==> s == "0"
    decreases n
  {
    if n < 10 then [Digit(n)] else Decimal(n / 10) + [Digit(n % 10)]
  }

  /** The number a string of decimal digits denotes; leading zeros are allowed. */
  function DecimalValue(s: string): nat
    requires AllDigits(s)
  {
    if s == [] then 0 else 10 * DecimalValue(s[..|s| - 1]) + DigitValue(s[|s| - 1])
  }

  function Pow10(w: nat): (p: nat)
    ensures p >= 1
  {
    if w == 0 then 1 else 10 * Pow10(w - 1)
  }

  /** `str(i)` for any integer: a minus sign in front of the digits of a negative one. */
  function IntToString(i: int): string
  {
    if i < 0 then "-" + Decimal(-i) else Decimal(i)
  }

  function Zeros(n: nat): (s: string)
    ensures |s| == n && forall k :: 0 <= k < n ==> s[k] == '0'
  {
    seq(n, _ => '0')
  }

  /** `s.zfill(width)`: pad on the left with '0' up to `width` characters,
      keeping a leading '+' or '-' in front of the padding. */
  function ZFill(s: string, width: int): string
  {
    if |s| >= width then s
    else if |s| > 0 && (s[0] == '+' || s[0] == '-') then [s[0]] + Zeros(width - |s|) + s[1..]
    else Zeros(width - |s|) + s
  }

  /** `'%0*d' % (width, n)`, which is also what `strftime` writes for `%j`
      (width 3) and for `%m`, `%d` (width 2). */
  function ZeroPadded(n: nat, width: nat): string
  {
    ZFill(Decimal(n), width)
  }

  /** The slice `s[:-k]` for a positive `k`: all but the last `k` characters,
      and the empty string when `s` is shorter than that. */
  function DropLast(s: string, k: nat): (r: string)
    requires k > 0
    ensures |r| == if |s| >= k then |s| - k else 0
    ensures r == s[..|r|]
  {
    if |s| >= k then s[..|s| - k] else ""
  }

  /** Reading back what `str` wrote gives the number again. */
  lemma {:induction false} DecimalRoundTrip(n: nat)
    ensures DecimalValue(Decimal(n)) == n
    decreases n
  {
    if n >= 10 {
      var s := Decimal(n);
      assert s[..|s| - 1] == Decimal(n / 10);
      DecimalRoundTrip(n / 10);
    }
  }

  /** A number below 10^w needs at most w digits. */
  lemma {:induction false} DecimalLength(n: nat, w: nat)
    requires 1 <= w && n < Pow10(w)
    ensures |Decimal(n)| <= w
    decreases n
  {
    if n >= 10 {
      assert Pow10(1) == 10;
      assert n / 10 < Pow10(w - 1);
      DecimalLength(n / 10, w - 1);
    }
  }

  lemma {:induction false} ZerosValue(k: nat)
    ensures AllDigits(Zeros(k)) && DecimalValue(Zeros(k)) == 0
  {
    if k > 0 {
      assert Zeros(k)[..k - 1] == Zeros(k - 1);
      ZerosValue(k - 1);
    }
  }

  /** Leading zeros do not change the value of a digit string. */
  lemma {:induction false} LeadingZerosValue(k: nat, s: string)
    requires AllDigits(s)
    ensures AllDigits(Zeros(k) + s) && DecimalValue(Zeros(k) + s) == DecimalValue(s)
    decreases |s|
  {
    var z := Zeros(k) + s;
    if s == [] {
      assert z == Zeros(k);
      ZerosValue(k);
    } else {
      assert z[..|z| - 1] == Zeros(k) + s[..|s| - 1];
      LeadingZerosValue(k, s[..|s| - 1]);
    }
  }

  /** zfill of a digit string is a digit string of at least `width`
      characters that ends with the original and has the same value. */
  lemma ZFillDigits(s: string, width: int)
    requires AllDigits(s)
    ensures var r := ZFill(s, width);
      && |r| == (if |s| >= width then |s| else width)
      && r[|r| - |s|..] == s
      && AllDigits(r)
      && DecimalValue(r) == DecimalValue(s)
  {
    if |s| < width {
      if |s| > 0 {
        assert s[0] != '+' && s[0] != '-' by { assert IsDigit(s[0]); }
      }
      LeadingZerosValue(width - |s|, s);
    }
  }

  /** The zero-padded rendering of n: exactly `width` digits when n has no
      more than that, and read back it is n. */
  lemma ZeroPaddedDigits(n: nat, width: nat)
    requires 1 <= width && n < Pow10(width)
    ensures var r := ZeroPadded(n, width);
      |r| == width && AllDigits(r) && DecimalValue(r) == n
  {
    DecimalLength(n, width);
    ZFillDigits(Decimal(n), width);
    DecimalRoundTrip(n);
  }

  /** zfill never shortens, and every character it adds is '0'; a string
      without a given character gains none, unless that character is '0'. */
  lemma ZFillChars(s: string, width: int, c: char)
    requires c != '0' && forall i :: 0 <= i < |s| ==> s[i] != c
    ensures var r := ZFill(s, width);
      |r| >= |s| && |r| >= width && forall i :: 0 <= i < |r| ==> r[i] != c
  {
  }
}
