/** Integers as text: what sprintf prints with %d, and strtol reads with base 0, where
    int and long have 32 bits. */
module Decimals {
  import opened IniLine

  type Int32 = n: int | -0x8000_0000 <= n < 0x8000_0000

  function Digit(d: nat): char
    requires d < 10
  {
    ('0' as int + d) as char
  }

  function DecimalNat(n: nat): string {
    if n < 10 then [Digit(n)] else DecimalNat(n / 10) + [Digit(n % 10)]
  }

  function Abs(n: int): nat { if n < 0 then -n else n }

  /** The "%d" of printf. */
  function Decimal(n: int): string { if n < 0 then "-" + DecimalNat(Abs(n)) else DecimalNat(Abs(n)) }

  /** The value of a digit, in any base up to 36. */
  function DigitValue(c: char): nat {
    if '0' <= c <= '9' then c as int - '0' as int
    else if 'a' <= c <= 'z' then c as int - 'a' as int + 10
    else if 'A' <= c <= 'Z' then c as int - 'A' as int + 10
    else 36
  }

  function Number(s: string, base: nat, acc: nat): nat {
    if s == "" || DigitValue(s[0]) >= base then acc else Number(s[1..], base, acc * base + DigitValue(s[0]))
  }

  predicate IsHex(u: string) { |u| > 2 && u[0] == '0' && (u[1] == 'x' || u[1] == 'X') && DigitValue(u[2]) < 16 }

  function Magnitude(u: string): nat {
    if IsHex(u) then Number(u[2..], 16, 0)
    else if u != "" && u[0] == '0' then Number(u, 8, 0)
    else Number(u, 10, 0)
  }

  function Clamp(n: int): Int32 {
    if n < -0x8000_0000 then -0x8000_0000 else if n > 0x7FFF_FFFF then 0x7FFF_FFFF else n
  }

  /** strtol with base 0. */
  function StrToL(s: string): Int32 {
    var t := SkipSpace(s);
    if t != "" && t[0] == '-' then Clamp(0 - Magnitude(t[1..]))
    else if t != "" && t[0] == '+' then Clamp(Magnitude(t[1..]))
    else Clamp(Magnitude(t))
  }

  predicate AllDigits(s: string) { forall i :: 0 <= i < |s| ==> '0' <= s[i] <= '9' }

  lemma {:induction false} DecimalDigits(n: nat)
    ensures DecimalNat(n) != "" && AllDigits(DecimalNat(n))
    ensures DecimalNat(n)[0] == '0' <==> n == 0
    decreases n
  {
    if n >= 10 {
      DecimalDigits(n / 10);
    }
  }

  lemma {:induction false} NumberOfBoth(a: string, b: string, acc: nat)
    requires AllDigits(a)
    ensures Number(a + b, 10, acc) == Number(b, 10, Number(a, 10, acc))
    decreases |a|
  {
    if a == "" {
      assert a + b == b;
    } else {
      assert (a + b)[1..] == a[1..] + b;
      NumberOfBoth(a[1..], b, acc * 10 + DigitValue(a[0]));
    }
  }

  lemma {:induction false} NumberOfDecimal(n: nat)
    ensures Number(DecimalNat(n), 10, 0) == n
    decreases n
  {
    var last := [Digit(n % 10)];
    if n >= 10 {
      NumberOfDecimal(n / 10);
      DecimalDigits(n / 10);
      NumberOfBoth(DecimalNat(n / 10), last, 0);
    }
    assert last[1..] == "";
  }

  /** A printed decimal is read in base 10, or is the 0 that every base reads alike. */
  lemma MagnitudeOfDecimal(n: nat)
    ensures Magnitude(DecimalNat(n)) == n
  {
    DecimalDigits(n);
    NumberOfDecimal(n);
    if n == 0 {
      assert DecimalNat(0)[1..] == "";
    }
  }

  lemma ReadPositive(d: string)
    requires d != "" && '0' <= d[0] <= '9'
    ensures StrToL(d) == Clamp(Magnitude(d))
  {
  }

  lemma ReadNegative(d: string)
    ensures StrToL("-" + d) == Clamp(0 - Magnitude(d))
  {
  }

  /** Every int survives sprintf and strtol. */
  lemma DecimalRoundTrip(n: Int32)
    ensures StrToL(Decimal(n)) == n
  {
    hide Magnitude, DecimalNat, StrToL;
    var m := Abs(n);
    DecimalDigits(m);
    MagnitudeOfDecimal(m);
    if n < 0 {
      ReadNegative(DecimalNat(m));
    } else {
      ReadPositive(DecimalNat(m));
    }
  }

  lemma {:induction false} DecimalLength(n: nat, d: nat, bound: nat)
    requires d > 0 && bound > n
    requires bound <= Power10(d)
    ensures |DecimalNat(n)| <= d
    decreases d
  {
    if n >= 10 && d > 1 {
      DecimalLength(n / 10, d - 1, n / 10 + 1);
    }
  }

  function Power10(d: nat): nat { if d == 0 then 1 else 10 * Power10(d - 1) }

  lemma DecimalSafe(n: Int32)
    ensures var v := Decimal(n);
            v != "" && |v| <= 11 && forall i :: 0 <= i < |v| ==> v[i] == '-' || '0' <= v[i] <= '9'
  {
    hide DecimalNat;
    var m := Abs(n);
    DecimalDigits(m);
    assert Power10(10) == 10_000_000_000;
    DecimalLength(m, 10, 10_000_000_000);
  }
}
