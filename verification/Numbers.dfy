/** Reading and writing numbers in positional notation. */
module Numbers {
  import opened Prelude

  const I64_MAX: int := 0x7FFF_FFFF_FFFF_FFFF
  const I64_MIN: int := -0x8000_0000_0000_0000
  const U64_MAX: int := 0xFFFF_FFFF_FFFF_FFFF

  predicate FitsI64(i: int) {
    I64_MIN <= i <= I64_MAX
  }

  /** The digit a character stands for in bases up to sixteen. */
  function DigitOf(c: char): Option<nat> {
    if '0' <= c <= '9' then Some((c - '0') as nat)
    else if 'a' <= c <= 'f' then Some((c - 'a') as nat + 10)
    else if 'A' <= c <= 'F' then Some((c - 'A') as nat + 10)
    else None
  }

  predicate IsDigit(c: char, radix: nat) {
    DigitOf(c).Some? && DigitOf(c).value < radix
  }

  predicate AllDigits(s: string, radix: nat) {
    forall i | 0 <= i < |s| :: IsDigit(s[i], radix)
  }

  /** The value of a digit string, most significant digit first. */
  function Positional(s: string, radix: nat): nat
    requires AllDigits(s, radix)
  {
    if s == "" then 0 else Positional(s[..|s| - 1], radix) * radix + DigitOf(s[|s| - 1]).value
  }

  /** Reads an unsigned number: an optional `+`, at least one digit, and a value within the limit. */
  function FromRadix(s: string, radix: nat, limit: int): Option<nat> {
    var digits := if |s| > 1 && s[0] == '+' then s[1..] else s;
    if digits == "" || !AllDigits(digits, radix) || Positional(digits, radix) > limit then None
    else Some(Positional(digits, radix))
  }

  // ----- Writing

  function Digit(d: nat): char
    requires d < 10
  {
    '0' + d as char
  }

  function Decimal(n: nat): string {
    if n < 10 then [Digit(n)] else Decimal(n / 10) + [Digit(n % 10)]
  }

  function IntText(i: int): string {
    if i < 0 then "-" + Decimal(-i) else Decimal(i)
  }

  /** Decimal digits, no superfluous leading zero, read back as the number itself. */
  lemma {:induction false} DecimalReads(n: nat)
    ensures |Decimal(n)| > 0 && AllDigits(Decimal(n), 10) && Positional(Decimal(n), 10) == n
    ensures Decimal(n)[0] == '0' ==> n == 0 && |Decimal(n)| == 1
  {
    if n < 10 {
      assert Decimal(n)[..0] == "";
    } else {
      DecimalReads(n / 10);
      var front := Decimal(n / 10);
      assert Decimal(n)[..|front|] == front;
    }
  }
}
