/** Decimal digit strings and Go's 64-bit `int`: what `strconv.Atoi` reads,
    what `%d` prints, and the two's-complement wrap-around of `int`
    arithmetic (Go's `int` is 64 bits wide on the platforms the tool runs on). */
module Decimal {
  import opened Wrappers

  predicate IsDigit(c: char) {
    '0' <= c <= '9'
  }

  predicate AllDigits(s: string) {
    forall i :: 0 <= i < |s| ==> IsDigit(s[i])
  }

  function DigitValue(c: char): (d: nat)
    requires IsDigit(c)
    ensures d < 10
  {
    c as int - '0' as int
  }

  function DigitChar(d: nat): (c: char)
    requires d < 10
    ensures IsDigit(c) && DigitValue(c) == d
  {
    ('0' as int + d) as char
  }

  /** The number a string of decimal digits denotes (leading zeros allowed). */
  function Value(s: string): nat
    requires AllDigits(s)
  {
    if s == [] then 0 else Value(s[..|s| - 1]) * 10 + DigitValue(s[|s| - 1])
  }

  /** The shortest decimal spelling of n, as `%d` prints it. */
  function NatToDecimal(n: nat): (r: string)
    ensures |r| >= 1 && AllDigits(r)
    ensures |r| > 1 ==> r[0] != '0'
    decreases n
  {
    if n < 10 then [DigitChar(n)] else NatToDecimal(n / 10) + [DigitChar(n % 10)]
  }

  /** `%d` of a signed integer. */
  function IntToDecimal(x: int): (r: string)
    ensures |r| >= 1
    ensures r[0] == '-' <==> x < 0
  {
    if x < 0 then "-" + NatToDecimal(-x) else NatToDecimal(x)
  }

  /** Reading back what `%d` printed gives the number again. */
  lemma {:induction false} ValueOfNatToDecimal(n: nat)
    ensures Value(NatToDecimal(n)) == n
    decreases n
  {
    if n >= 10 {
      var r := NatToDecimal(n);
      ValueOfNatToDecimal(n / 10);
      assert r[..|r| - 1] == NatToDecimal(n / 10);
    }
  }

  /** Printing the value of a digit string without leading zeros gives the
      string back. */
  lemma {:induction false} NatToDecimalOfValue(s: string)
    requires |s| >= 1 && AllDigits(s) && (|s| > 1 ==> s[0] != '0')
    ensures NatToDecimal(Value(s)) == s
    decreases |s|
  {
    var init := s[..|s| - 1];
    if |s| == 1 {
      assert Value(s) == DigitValue(s[0]);
    } else {
      assert init[0] == s[0];
      ValuePositive(init);
      NatToDecimalOfValue(init);
      assert Value(s) / 10 == Value(init) && Value(s) % 10 == DigitValue(s[|s| - 1]);
      assert s == init + [s[|s| - 1]];
    }
  }

  /** A digit string that does not start with 0 denotes a positive number,
      at least 10 when it has two digits or more. */
  lemma {:induction false} ValuePositive(s: string)
    requires |s| >= 1 && AllDigits(s) && s[0] != '0'
    ensures Value(s) >= 1
    ensures |s| > 1 ==> Value(s) >= 10
    decreases |s|
  {
    if |s| > 1 {
      var init := s[..|s| - 1];
      assert init[0] == s[0];
      ValuePositive(init);
    }
  }

  const MaxInt64: int := 0x7fff_ffff_ffff_ffff
  const MinInt64: int := -0x8000_0000_0000_0000

  /** The 64-bit two's-complement value of x, as Go's `int` arithmetic leaves it. */
  function Int64(x: int): (r: int)
    ensures MinInt64 <= r <= MaxInt64
    ensures (r - x) % 0x1_0000_0000_0000_0000 == 0
    ensures MinInt64 <= x <= MaxInt64 ==> r == x
  {
    (x - MinInt64) % 0x1_0000_0000_0000_0000 + MinInt64
  }

  /** `strconv.Atoi` on a string of digits: its value, a syntax error for
      the empty string, or a range error when it does not fit in an `int`. */
  function Atoi(s: string): (r: Option<nat>)
    requires AllDigits(s)
    ensures r.Some? <==> |s| > 0 && Value(s) <= MaxInt64
    ensures r.Some? ==> r.value == Value(s)
  {
    if |s| == 0 then None
    else if Value(s) <= MaxInt64 then Some(Value(s)) else None
  }
}
