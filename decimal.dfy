/**
 * Decimal rendering of non-negative integers, as Python's `f"{n}"` and
 * `f"{n:03d}"` produce it, together with the parse that inverts it.
 * Story identifiers and sprint identifiers are built from these.
 */
module Decimal {

  predicate IsDigit(c: char) {
    '0' <= c <= '9'
  }

  function DigitChar(d: nat): (c: char)
    requires d < 10
    ensures IsDigit(c) && DigitValue(c) == d
  {
    ('0' as int + d) as char
  }

  function DigitValue(c: char): nat {
    if IsDigit(c) then c as int - '0' as int else 0
  }

  /** The shortest decimal spelling of `n`, most significant digit first. */
  function Digits(n: nat): (s: string)
    ensures 1 <= |s|
    ensures forall i | 0 <= i < |s| :: IsDigit(s[i])
    decreases n
  {
    if n < 10 then [DigitChar(n)] else Digits(n / 10) + [DigitChar(n % 10)]
  }

  function Zeros(k: nat): (s: string)
    ensures |s| == k && forall i | 0 <= i < k :: s[i] == '0'
  {
    if k == 0 then [] else ['0'] + Zeros(k - 1)
  }

  /** `n` left-padded with zeros to at least `width` characters (format spec `0<width>d`). */
  function ZeroPad(n: nat, width: nat): string {
    var d := Digits(n);
    if |d| >= width then d else Zeros(width - |d|) + d
  }

  /** The number a string of decimal digits denotes. */
  function Value(s: string): nat {
    if s == [] then 0 else Value(s[..|s| - 1]) * 10 + DigitValue(s[|s| - 1])
  }

  lemma {:induction false} ValueOfDigits(n: nat)
    ensures Value(Digits(n)) == n
    decreases n
  {
    var s := Digits(n);
    if n >= 10 {
      ValueOfDigits(n / 10);
      assert s[..|s| - 1] == Digits(n / 10);
    }
  }

  lemma {:induction false} ValueSkipsLeadingZeros(k: nat, s: string)
    ensures Value(Zeros(k) + s) == Value(s)
    decreases k, |s|
  {
    if k == 0 {
      assert Zeros(k) + s == s;
    } else if s == [] {
      assert Zeros(k) + s == ['0'] + Zeros(k - 1);
      assert (['0'] + Zeros(k - 1))[..k - 1] == Zeros(k - 1);
      ValueSkipsLeadingZeros(k - 1, []);
      assert Zeros(k - 1) + [] == Zeros(k - 1);
    } else {
      var t := Zeros(k) + s;
      assert t[..|t| - 1] == Zeros(k) + s[..|s| - 1];
      ValueSkipsLeadingZeros(k, s[..|s| - 1]);
    }
  }

  /** Zero padding never changes the number: parsing the padded text gives `n` back. */
  lemma ZeroPadRoundTrip(n: nat, width: nat)
    ensures Value(ZeroPad(n, width)) == n
  {
    var d := Digits(n);
    ValueOfDigits(n);
    if |d| < width {
      ValueSkipsLeadingZeros(width - |d|, d);
    }
  }

  /** The padded text is all digits and at least `width` long. */
  lemma ZeroPadShape(n: nat, width: nat)
    ensures width <= |ZeroPad(n, width)|
    ensures forall i | 0 <= i < |ZeroPad(n, width)| :: IsDigit(ZeroPad(n, width)[i])
  {
    var d := Digits(n);
    if |d| < width {
      var p := Zeros(width - |d|) + d;
      forall i | 0 <= i < |p| ensures IsDigit(p[i]) {
        if i >= width - |d| { assert p[i] == d[i - (width - |d|)]; }
      }
    }
  }

  lemma ZeroPadInjective(a: nat, b: nat, width: nat)
    ensures ZeroPad(a, width) == ZeroPad(b, width) ==> a == b
  {
    ZeroPadRoundTrip(a, width);
    ZeroPadRoundTrip(b, width);
  }

  lemma DigitsInjective(a: nat, b: nat)
    ensures Digits(a) == Digits(b) ==> a == b
  {
    ValueOfDigits(a);
    ValueOfDigits(b);
  }
}
