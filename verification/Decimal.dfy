/** Decimal printing and parsing of Rust's integers. */
module Decimal {
  import opened Wrappers

  const U64_MAX: nat := 0xFFFF_FFFF_FFFF_FFFF

  predicate IsDigit(c: char) {
    '0' <= c <= '9'
  }

  predicate AllDigits(s: string) {
    s != "" && forall i :: 0 <= i < |s| ==> IsDigit(s[i])
  }

  function Digit(d: nat): (c: char)
    requires d < 10
    ensures IsDigit(c)
  {
    '0' + d as char
  }

  function Print(n: nat): (s: string)
    ensures AllDigits(s)
  {
    if n < 10 then [Digit(n)] else Print(n / 10) + [Digit(n % 10)]
  }

  /** The number a string of digits denotes. */
  function Value(s: string): nat
    requires forall i :: 0 <= i < |s| ==> IsDigit(s[i])
  {
    if s == "" then 0
    else
      assert IsDigit(s[|s| - 1]);
      10 * Value(s[..|s| - 1]) + (s[|s| - 1] as int - '0' as int)
  }

  lemma {:induction false} PrintValue(n: nat)
    ensures Value(Print(n)) == n
  {
    var s := Print(n);
    if n >= 10 {
      PrintValue(n / 10);
      assert s[..|s| - 1] == Print(n / 10);
    } else {
      assert s[..0] == "";
    }
  }

  /** Digits without padding zeros are printed back. */
  lemma {:induction false} ValuePrint(s: string)
    requires AllDigits(s) && (s[0] == '0' ==> |s| == 1)
    ensures Print(Value(s)) == s
    ensures |s| > 1 ==> Value(s) >= 10
  {
    var n := |s| - 1;
    if n == 0 {
      assert s[..0] == "" && s == [s[0]];
    } else {
      assert s == s[..n] + [s[n]] && IsDigit(s[n]);
      assert s[..n][0] == s[0] && AllDigits(s[..n]);
      if n == 1 {
        assert s[..n][..0] == "" && IsDigit(s[0]);
      } else {
        ValuePrint(s[..n]);
      }
      assert Value(s[..n]) >= 1;
      ShiftDigit(Value(s[..n]), s[n] as int - '0' as int);
      if n == 1 {
        ValuePrint(s[..n]);
      }
    }
  }

  lemma ShiftDigit(high: nat, low: nat)
    requires low < 10
    ensures (10 * high + low) / 10 == high && (10 * high + low) % 10 == low
  {
  }

  lemma {:induction false} LeadingZero(s: string)
    requires AllDigits(s) && s[0] == '0'
    ensures Value(s) == Value(s[1..])
    decreases |s|
  {
    var n := |s| - 1;
    if n == 0 {
      assert s[..0] == "" && s[1..] == "";
    } else {
      assert s[1..][..n - 1] == s[..n][1..] && s[..n][0] == s[0];
      LeadingZero(s[..n]);
    }
  }

  lemma {:induction false} PrintIsNoLonger(s: string)
    requires AllDigits(s)
    ensures |Print(Value(s))| <= |s|
    decreases |s|
  {
    if s[0] == '0' && |s| > 1 {
      assert forall i :: 0 <= i < |s[1..]| ==> s[1..][i] == s[i + 1];
      LeadingZero(s);
      PrintIsNoLonger(s[1..]);
    } else {
      ValuePrint(s);
    }
  }

  /** Printing does not bring padding zeros back. */
  lemma PaddingIsLost(s: string)
    requires AllDigits(s) && s[0] == '0' && |s| > 1
    ensures |Print(Value(s))| < |s|
  {
    assert forall i :: 0 <= i < |s[1..]| ==> s[1..][i] == s[i + 1];
    LeadingZero(s);
    PrintIsNoLonger(s[1..]);
  }

  /** `str::parse` for an unsigned type of the given maximum: an optional plus
      sign, then digits, without overflow. */
  function ParseUnsigned(s: string, max: nat): Option<nat> {
    var d := if s != "" && s[0] == '+' then s[1..] else s;
    if AllDigits(d) && Value(d) <= max then Some(Value(d)) else None
  }

  /** `str::parse` for `i32`. */
  function ParseI32(s: string): Option<int> {
    if s != "" && s[0] == '-' then
      if AllDigits(s[1..]) && Value(s[1..]) <= 0x8000_0000 then Some(-(Value(s[1..]) as int)) else None
    else
      match ParseUnsigned(s, 0x7FFF_FFFF)
      case Some(n) => Some(n)
      case None => None
  }

  function PrintI32(n: int): string {
    if n < 0 then "-" + Print(-n) else Print(n)
  }

  lemma UnsignedRoundTrip(n: nat, max: nat)
    requires n <= max
    ensures ParseUnsigned(Print(n), max) == Some(n)
  {
    PrintValue(n);
  }

  lemma I32RoundTrip(n: int)
    requires -0x8000_0000 <= n <= 0x7FFF_FFFF
    ensures ParseI32(PrintI32(n)) == Some(n)
  {
    if n < 0 {
      NegativeRoundTrip(-n);
    } else {
      PrintValue(n);
      assert IsDigit(Print(n)[0]);
    }
  }

  lemma NegativeRoundTrip(n: nat)
    requires 0 < n <= 0x8000_0000
    ensures ParseI32("-" + Print(n)) == Some(-(n as int))
  {
    PrintValue(n);
    assert ("-" + Print(n))[1..] == Print(n);
  }
}
