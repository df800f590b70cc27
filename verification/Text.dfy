/** Bytes and decimal numbers. */
module Text {
  import opened Collections

  type Byte = b: int | 0 <= b < 256

  function Digit(d: nat): char
    requires d < 10
  {
    "0123456789"[d]
  }

  function Dec(n: nat): string {
    if n < 10 then [Digit(n)] else Dec(n / 10) + [Digit(n % 10)]
  }

  predicate IsDigit(c: char) {
    '0' <= c <= '9'
  }

  function DigitValue(c: char): nat
    requires IsDigit(c)
  {
    c as int - '0' as int
  }

  /** The value of a string of digits; anything else is an error. */
  function ParseNat(s: string): Option<nat> {
    if s == "" || !IsDigit(s[|s| - 1]) then None
    else if |s| == 1 then Some(DigitValue(s[0]))
    else
      match ParseNat(s[..|s| - 1])
      case None => None
      case Some(v) => Some(10 * v + DigitValue(s[|s| - 1]))
  }

  ghost predicate Digits(s: string) {
    s != "" && forall i :: 0 <= i < |s| ==> IsDigit(s[i])
  }

  lemma {:induction false} ParseAppend(s: string, c: char)
    requires s != "" && IsDigit(c)
    ensures ParseNat(s + [c])
            == match ParseNat(s)
               case None => None
               case Some(v) => Some(10 * v + DigitValue(c))
  {
    assert (s + [c])[..|s|] == s;
  }

  /** Decimal notation: the last digit stands for the remainder by ten, what precedes it for the quotient. */
  lemma {:induction false} DecMeaning(n: nat)
    ensures Dec(n) == (if n < 10 then "" else Dec(n / 10)) + ["0123456789"[n % 10]]
    ensures n > 0 ==> Dec(n)[0] != '0'
  {
    if n >= 10 {
      DecMeaning(n / 10);
    }
  }

  lemma {:induction false} ParsesBack(n: nat)
    ensures ParseNat(Dec(n)) == Some(n) && Digits(Dec(n))
  {
    if n >= 10 {
      ParsesBack(n / 10);
      ParseAppend(Dec(n / 10), Digit(n % 10));
    }
  }
}
