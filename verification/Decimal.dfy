/** Decimal text of integers, as written to and read back from the store. */
module Decimal {
  import opened Base

  const MAX_INT64: int := 0x7FFF_FFFF_FFFF_FFFF
  const MIN_INT64: int := -0x8000_0000_0000_0000
  const TWO_TO_64: int := 0x1_0000_0000_0000_0000

  predicate InInt64(n: int) { MIN_INT64 <= n <= MAX_INT64 }

  predicate IsDigit(c: char) { '0' <= c <= '9' }

  predicate AllDigits(s: string) { forall c <- s :: IsDigit(c) }

  function Digit(d: nat): (c: char)
    requires d < 10
  {
    '0' + d as char
  }

  function Digits(n: nat): (s: string)
    ensures |s| > 0 && AllDigits(s)
  {
    if n < 10 then [Digit(n)] else Digits(n / 10) + [Digit(n % 10)]
  }

  function Value(s: string): (n: nat)
    requires AllDigits(s)
  {
    if s == [] then 0
    else
      var last := s[|s| - 1];
      assert IsDigit(last);
      10 * Value(s[..|s| - 1]) + (last as int - '0' as int)
  }

  function Print(n: int): (s: string) {
    if n < 0 then "-" + Digits(-n) else Digits(n)
  }

  /** strconv.ParseInt(s, 10, 64): an optional sign, at least one digit, and a 64-bit value. */
  function ParseInt64(s: string): (r: Option<int>)
    ensures r.Some? ==> InInt64(r.value)
  {
    var signed := |s| > 0 && (s[0] == '-' || s[0] == '+');
    var digits := if signed then s[1..] else s;
    if digits == [] || !AllDigits(digits) then None
    else
      var value: int := Value(digits);
      var n := if signed && s[0] == '-' then -value else value;
      if InInt64(n) then Some(n) else None
  }

  lemma {:induction false} ValueOfDigits(n: nat)
    ensures Value(Digits(n)) == n
  {
    if n >= 10 {
      ValueOfDigits(n / 10);
      assert Digits(n)[..|Digits(n)| - 1] == Digits(n / 10);
    }
  }

  /** Reading back printed text gives the number exactly when it fits a signed 64-bit word. */
  lemma ParsePrint(n: int)
    ensures ParseInt64(Print(n)) == if InInt64(n) then Some(n) else None
  {
    if n < 0 {
      ValueOfDigits(-n);
      assert Print(n)[1..] == Digits(-n);
    } else {
      ValueOfDigits(n);
      assert IsDigit(Digits(n)[0]);
    }
  }

  /** strconv.ParseUint on the text of a number, without its 64-bit limit. */
  function ParseUint(text: string): (n: nat) { if AllDigits(text) then Value(text) else 0 }

  lemma ParseUintPrint(n: nat)
    ensures ParseUint(Print(n)) == n
  {
    ValueOfDigits(n);
  }

  lemma SignShows(n: int)
    ensures n < 0 <==> Print(n)[0] == '-'
    ensures Value(if n < 0 then Print(n)[1..] else Print(n)) == if n < 0 then -n else n
  {
    var digits := Digits(if n < 0 then -n else n);
    ValueOfDigits(if n < 0 then -n else n);
    assert IsDigit(digits[0]);
    assert n < 0 ==> Print(n)[1..] == digits;
  }

  lemma PrintInjective(m: int, n: int)
    requires Print(m) == Print(n)
    ensures m == n
  {
    SignShows(m);
    SignShows(n);
  }

  lemma PrintHasNoColon(n: int)
    ensures ':' !in Print(n)
  {
    assert AllDigits(Digits(if n < 0 then -n else n));
  }
}
