/** Decimal numerals and the separators that keep printed identifiers unambiguous. */
module Text {

  datatype Option<+T> = None | Some(value: T)

  predicate IsDigit(c: char) {
    '0' <= c <= '9'
  }

  predicate AllDigits(s: string) {
    forall i :: 0 <= i < |s| ==> IsDigit(s[i])
  }

  function Digit(n: nat): (c: char)
    requires n < 10
    ensures IsDigit(c)
  {
    "0123456789"[n]
  }

  function DigitValue(c: char): (n: nat)
    requires IsDigit(c)
    ensures n < 10
  {
    c as int - '0' as int
  }

  /** `str(n)` */
  function Decimal(n: nat): (s: string)
    ensures AllDigits(s) && |s| >= 1
  {
    if n < 10 then [Digit(n)] else Decimal(n / 10) + [Digit(n % 10)]
  }

  /** The number a digit string denotes; leading zeros are allowed. */
  function Value(s: string): nat
    requires AllDigits(s)
  {
    if s == "" then 0 else Value(s[..|s| - 1]) * 10 + DigitValue(s[|s| - 1])
  }

  lemma DigitRoundTrip(n: nat)
    requires n < 10
    ensures DigitValue(Digit(n)) == n
  {
  }

  lemma {:induction false} DecimalRoundTrip(n: nat)
    ensures Value(Decimal(n)) == n
  {
    DigitRoundTrip(n % 10);
    if n >= 10 {
      DecimalRoundTrip(n / 10);
      var s := Decimal(n);
      assert s[..|s| - 1] == Decimal(n / 10);
    } else {
      assert Decimal(n)[..0] == "";
    }
  }

  lemma DecimalInjective(a: nat, b: nat)
    requires Decimal(a) == Decimal(b)
    ensures a == b
  {
    DecimalRoundTrip(a);
    DecimalRoundTrip(b);
  }

  function Zeros(n: nat): (s: string)
    ensures |s| == n && AllDigits(s)
  {
    if n == 0 then "" else Zeros(n - 1) + "0"
  }

  /** `f"{n:0{width}d}"` */
  function Padded(n: nat, width: nat): (s: string)
    ensures AllDigits(s) && |s| >= width && |s| >= 1
  {
    var d := Decimal(n);
    if |d| >= width then d else Zeros(width - |d|) + d
  }

  lemma {:induction false} LeadingZeros(z: nat, s: string)
    requires AllDigits(s)
    ensures AllDigits(Zeros(z) + s)
    ensures Value(Zeros(z) + s) == Value(s)
  {
    if s == "" {
      assert Zeros(z) + s == Zeros(z);
      if z > 0 {
        LeadingZeros(z - 1, "");
        assert Zeros(z)[..z - 1] == Zeros(z - 1) == Zeros(z - 1) + "";
      }
    } else {
      var front := s[..|s| - 1];
      LeadingZeros(z, front);
      assert (Zeros(z) + s)[..z + |s| - 1] == Zeros(z) + front;
    }
  }

  lemma PaddedIsZeros(n: nat, width: nat) returns (z: nat)
    ensures Padded(n, width) == Zeros(z) + Decimal(n)
  {
    var d := Decimal(n);
    if |d| < width {
      z := width - |d|;
    } else {
      z := 0;
      assert Zeros(0) + d == d;
    }
  }

  lemma PaddedRoundTrip(n: nat, width: nat)
    ensures Value(Padded(n, width)) == n
  {
    var z := PaddedIsZeros(n, width);
    LeadingZeros(z, Decimal(n));
    DecimalRoundTrip(n);
  }

  lemma {:induction false} DecimalLength(n: nat, width: nat, bound: nat)
    requires width >= 1 && bound == Power10(width) && n < bound
    ensures |Decimal(n)| <= width
  {
    if n >= 10 {
      assert width >= 2;
      DecimalLength(n / 10, width - 1, Power10(width - 1));
    }
  }

  lemma {:induction false} Power10IsPositive(n: nat)
    ensures Power10(n) >= 1
  {
    if n > 0 {
      Power10IsPositive(n - 1);
    }
  }

  lemma {:induction false} DecimalIsLong(n: nat, digits: nat)
    requires n >= Power10(digits)
    ensures |Decimal(n)| > digits
    decreases digits
  {
    if digits > 0 {
      Power10IsPositive(digits - 1);
      DecimalIsLong(n / 10, digits - 1);
    }
  }

  function Power10(n: nat): nat {
    if n == 0 then 1 else 10 * Power10(n - 1)
  }

  /** A number that fits is printed in exactly the field's width. */
  lemma PaddedWidth(n: nat, width: nat)
    requires width >= 1 && n < Power10(width)
    ensures |Padded(n, width)| == width
  {
    DecimalLength(n, width, Power10(width));
  }

  predicate Free(s: string, c: char) {
    forall i :: 0 <= i < |s| ==> s[i] != c
  }

  /** The text before the first separator, and the text after it, are determined by the whole. */
  lemma FirstSeparator(a: string, x: string, b: string, y: string, c: char)
    requires Free(a, c) && Free(b, c)
    requires a + [c] + x == b + [c] + y
    ensures a == b && x == y
  {
    var s := a + [c] + x;
    var t := b + [c] + y;
    assert s[|a|] == c && t[|b|] == c;
    assert forall i :: 0 <= i < |a| ==> s[i] == a[i];
    assert forall i :: 0 <= i < |b| ==> t[i] == b[i];
    assert |a| == |b|;
    assert a == s[..|a|] && b == t[..|b|];
    assert x == s[|a| + 1..] && y == t[|b| + 1..];
  }

  /** The text after the last separator, and the text before it, are determined by the whole. */
  lemma LastSeparator(x: string, a: string, y: string, b: string, c: char)
    requires Free(a, c) && Free(b, c)
    requires x + [c] + a == y + [c] + b
    ensures a == b && x == y
  {
    var s := x + [c] + a;
    var t := y + [c] + b;
    var n := |s|;
    assert s[n - |a| - 1] == c && t[n - |b| - 1] == c;
    assert forall i :: n - |a| <= i < n ==> s[i] == a[i - (n - |a|)];
    assert forall i :: n - |b| <= i < n ==> t[i] == b[i - (n - |b|)];
    assert |a| == |b|;
    assert a == s[|s| - |a|..] && b == t[|t| - |b|..];
    assert x == s[..|s| - |a| - 1] && y == t[..|t| - |b| - 1];
  }
}
