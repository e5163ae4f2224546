/** Decimal printing and parsing of 64-bit integers, as fmt's %d and strconv.ParseInt(s, 10, 64). */
module Decimal {

  import opened Wrappers
  import Text

  const MIN: int := -0x8000_0000_0000_0000
  const MAX: int := 0x7fff_ffff_ffff_ffff

  predicate IsDigit(c: char) {
    '0' <= c <= '9'
  }

  function DigitChar(d: nat): (c: char)
    requires d < 10
    ensures IsDigit(c) && DigitValue(c) == d
  {
    '0' + d as char
  }

  function DigitValue(c: char): nat
    requires IsDigit(c)
  {
    c as int - '0' as int
  }

  function Digits(n: nat): (s: string)
    ensures |s| > 0 && forall i :: 0 <= i < |s| ==> IsDigit(s[i])
  {
    if n < 10 then [DigitChar(n)] else Digits(n / 10) + [DigitChar(n % 10)]
  }

  /** fmt.Sprintf("%d", n) */
  function Print(n: int): string {
    if n < 0 then "-" + Digits(-n) else Digits(n)
  }

  predicate AllDigits(s: string) {
    forall i :: 0 <= i < |s| ==> IsDigit(s[i])
  }

  function Value(s: string): nat
    requires AllDigits(s)
  {
    if |s| == 0 then 0 else 10 * Value(s[..|s| - 1]) + DigitValue(s[|s| - 1])
  }

  /** strconv.ParseInt(s, 10, 64): an optional sign, then at least one digit, within range. */
  function ParseInt(s: string): Option<int> {
    var signed := |s| > 0 && (s[0] == '+' || s[0] == '-');
    var digits := if signed then s[1..] else s;
    if |digits| == 0 || !AllDigits(digits) then None
    else
      var magnitude: int := Value(digits);
      var n := if signed && s[0] == '-' then -magnitude else magnitude;
      if MIN <= n <= MAX then Some(n) else None
  }

  lemma {:induction false} ValueOfDigits(n: nat)
    ensures Value(Digits(n)) == n
  {
    if n >= 10 {
      ValueOfDigits(n / 10);
      assert Digits(n)[..|Digits(n)| - 1] == Digits(n / 10);
    } else {
      assert Digits(n)[..0] == "";
    }
  }

  /** The last digit is the remainder by ten and the digits before it are those of the quotient. */
  lemma LastDigit(n: nat)
    requires n >= 10
    ensures var s := Print(n); s[..|s| - 1] == Print(n / 10) && s[|s| - 1] == '0' + (n % 10) as char
  {
  }

  lemma OneDigit(n: nat)
    requires n < 10
    ensures Print(n) == ['0' + n as char]
  {
  }

  lemma MinusSign(n: int)
    requires n < 0
    ensures Print(n) == "-" + Print(-n)
  {
  }

  /** The digits of a number, after a sign or not, are parsed as that number if it fits. */
  lemma ParseDigits(n: nat)
    ensures ParseInt(Digits(n)) == if n <= MAX then Some(n) else None
  {
    ValueOfDigits(n);
    assert IsDigit(Digits(n)[0]);
  }

  lemma ParseMinusDigits(n: nat)
    ensures ParseInt("-" + Digits(n)) == if n <= MAX + 1 then Some(0 - n) else None
  {
    ValueOfDigits(n);
    assert ("-" + Digits(n))[1..] == Digits(n);
  }

  /** Parsing what was printed gives the number back if it fits 64 bits, and an error if not. */
  lemma ParsePrint(n: int)
    ensures ParseInt(Print(n)) == if MIN <= n <= MAX then Some(n) else None
  {
    if n < 0 {
      ParseMinusDigits(-n);
    } else {
      ParseDigits(n);
    }
  }

  /** A printed number consists of digits after an optional minus sign. */
  lemma PrintPlain(n: int)
    ensures |Print(n)| > 0 && forall i :: 0 <= i < |Print(n)| ==> IsDigit(Print(n)[i]) || Print(n)[i] == '-'
    ensures Text.Trim(Print(n)) == Print(n)
  {
    Text.TrimTrims(Print(n));
  }

}
