/** Decimal digits: what `std::ostream << int` and `std::format` print, and what
    `std::from_chars` reads. */
module Decimal {
  import opened Arithmetic
  import opened Wrappers

  predicate IsDigit(c: char) {
    '0' <= c <= '9'
  }

  function Digit(n: int): char
    requires 0 <= n < 10
  {
    (48 + n) as char
  }

  function DigitValue(c: char): int
    requires IsDigit(c)
  {
    c as int - 48
  }

  predicate AllDigits(s: string) {
    forall i :: 0 <= i < |s| ==> IsDigit(s[i])
  }

  /** The shortest decimal numeral of n. */
  function Dec(n: nat): (s: string)
    ensures |s| > 0 && AllDigits(s)
  {
    if n < 10 then [Digit(n)] else Dec(n / 10) + [Digit(n % 10)]
  }

  function DecInt(n: int): string {
    if n < 0 then "-" + Dec(-n) else Dec(n)
  }

  /** The number a string of digits denotes. */
  function Value(s: string): nat
    requires AllDigits(s)
  {
    if s == [] then 0 else 10 * Value(s[..|s| - 1]) + DigitValue(s[|s| - 1])
  }

  lemma {:induction false} ValueOfDec(n: nat)
    ensures Value(Dec(n)) == n
  {
    if n >= 10 {
      ValueOfDec(n / 10);
      assert Dec(n)[..|Dec(n)| - 1] == Dec(n / 10);
    }
  }

  function ValueInt(s: string): Option<int> {
    if |s| > 1 && s[0] == '-' && AllDigits(s[1..]) then Some(0 - (Value(s[1..]) as int))
    else if |s| > 0 && AllDigits(s) then Some(Value(s))
    else None
  }

  lemma ValueOfDecInt(n: int)
    ensures ValueInt(DecInt(n)) == Some(n)
  {
    if n < 0 {
      ValueOfDec(-n);
      assert DecInt(n)[1..] == Dec(-n);
    } else {
      ValueOfDec(n);
      assert IsDigit(Dec(n)[0]);
    }
  }

  // ---- fixed width ----

  function Dec2(n: int): string
    requires 0 <= n < 100
  {
    [Digit(n / 10), Digit(n % 10)]
  }

  function Dec3(n: int): string
    requires 0 <= n < 1000
  {
    [Digit(n / 100)] + Dec2(n % 100)
  }

  function Dec4(n: int): string
    requires 0 <= n < 10000
  {
    [Digit(n / 1000)] + Dec3(n % 1000)
  }

  lemma LastDigit(n: nat, d: int, e: int)
    requires d > 0 && e == 10 * d
    ensures n % e % 10 == n % 10 && n % e / 10 == n / 10 % d && n / 10 / d == n / e
  {
    var q, r := n / e, n % e;
    assert n == e * q + r == 10 * (d * q) + r;
    Quotient(n, 10, d * q + r / 10, r % 10);
    Quotient(n / 10, d, q, r / 10);
  }

  lemma LongerDec(n: nat)
    ensures 10 <= n < 100 ==> Dec(n) == Dec2(n)
    ensures 100 <= n < 1000 ==> Dec(n) == Dec3(n) == Dec2(n / 10) + [Digit(n % 10)]
  {
    if n >= 10 {
      assert Dec(n) == Dec(n / 10) + [Digit(n % 10)];
      if n >= 100 {
        LastDigit(n, 10, 100);
        assert Dec(n / 10) == Dec(n / 10 / 10) + [Digit(n / 10 % 10)];
      }
    }
  }

  lemma OneDigit(n: nat)
    requires n < 10
    ensures Dec2(n) == "0" + Dec(n) && Dec3(n) == "00" + Dec(n)
  {
    assert n / 10 == 0 && n % 10 == n && n / 100 == 0 && n / 10 % 10 == 0;
    assert Dec(n) == [Digit(n)] && Dec2(n) == [Digit(0), Digit(n)] && Dec3(n) == [Digit(0), Digit(0), Digit(n)];
    hide Dec, Dec2, Dec3;
    assert Digit(0) == '0';
  }

  lemma TwoDigits(n: nat)
    requires 10 <= n < 100
    ensures Dec2(n) == Dec(n) && Dec3(n) == "0" + Dec(n)
  {
    LongerDec(n);
    assert Digit(0) == '0';
    hide Dec2, Dec;
  }

  /** What the printers' zero padding amounts to. */
  lemma Padding(n: nat)
    ensures n < 100 ==> Dec2(n) == (if n < 10 then "0" + Dec(n) else Dec(n))
    ensures n < 1000 ==> Dec3(n) == (if n < 10 then "00" + Dec(n) else if n < 100 then "0" + Dec(n) else Dec(n))
  {
    hide Dec, Dec2, Dec3;
    if n < 10 {
      OneDigit(n);
    } else if n < 100 {
      TwoDigits(n);
    } else {
      LongerDec(n);
    }
  }

  /** A year of four digits needs no padding. */
  lemma FourDigits(n: nat)
    requires 1000 <= n < 10000
    ensures Dec4(n) == Dec(n)
  {
    LongerDec(n / 10);
    LastDigit(n, 100, 1000);
    LastDigit(n % 1000, 10, 100);
    LastDigit(n / 10, 10, 100);
    assert Dec(n) == Dec(n / 10) + [Digit(n % 10)];
    assert Dec4(n) == [Digit(n / 1000), Digit(n % 1000 / 100), Digit(n % 1000 % 100 / 10), Digit(n % 1000 % 100 % 10)];
    hide Dec, Digit;
  }

  // ---- std::from_chars ----

  /** The value of the digits s starts with. */
  function Prefix(s: string, acc: int): int {
    if s == [] || !IsDigit(s[0]) then acc else Prefix(s[1..], 10 * acc + DigitValue(s[0]))
  }

  /** `std::from_chars` on a signed integer; trailing text is left unread.  The source passes at
      most four characters, so nothing is out of range for `int16_t`. */
  function FromChars(s: string): Option<int> {
    if |s| > 0 && IsDigit(s[0]) then Some(Prefix(s, 0))
    else if |s| > 1 && s[0] == '-' && IsDigit(s[1]) then Some(-Prefix(s[1..], 0))
    else None
  }

  lemma PrefixStep(c: char, rest: string, acc: int)
    requires IsDigit(c)
    ensures Prefix([c] + rest, acc) == Prefix(rest, 10 * acc + DigitValue(c))
  {
    assert ([c] + rest)[1..] == rest;
  }

  /** Two, three and four digits read back, whatever text that is no digit follows two of them. */
  lemma ReadDec2(n: int, rest: string)
    requires 0 <= n < 100 && (rest == [] || !IsDigit(rest[0]))
    ensures FromChars(Dec2(n) + rest) == Some(n)
  {
    assert Dec2(n) + rest == [Digit(n / 10)] + ([Digit(n % 10)] + rest);
    PrefixStep(Digit(n / 10), [Digit(n % 10)] + rest, 0);
    PrefixStep(Digit(n % 10), rest, n / 10);
  }

  lemma ReadTwo(n: int, acc: int)
    requires 0 <= n < 100
    ensures Prefix(Dec2(n), acc) == 100 * acc + n
  {
    assert Dec2(n) == [Digit(n / 10)] + ([Digit(n % 10)] + []);
    PrefixStep(Digit(n / 10), [Digit(n % 10)] + [], acc);
    PrefixStep(Digit(n % 10), [], 10 * acc + n / 10);
  }

  lemma ReadJustDec2(n: int)
    requires 0 <= n < 100
    ensures FromChars(Dec2(n)) == Some(n)
  {
    ReadTwo(n, 0);
  }

  lemma ReadThree(n: int, acc: int)
    requires 0 <= n < 1000
    ensures Prefix(Dec3(n), acc) == 1000 * acc + n
  {
    PrefixStep(Digit(n / 100), Dec2(n % 100), acc);
    ReadTwo(n % 100, 10 * acc + n / 100);
  }

  lemma ReadDec3(n: int)
    requires 0 <= n < 1000
    ensures FromChars(Dec3(n)) == Some(n)
  {
    ReadThree(n, 0);
  }

  lemma ReadDec4(n: int)
    requires 0 <= n < 10000
    ensures FromChars(Dec4(n)) == Some(n)
  {
    PrefixStep(Digit(n / 1000), Dec3(n % 1000), 0);
    ReadThree(n % 1000, n / 1000);
  }
}
