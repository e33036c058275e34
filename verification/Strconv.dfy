/** Decimal integers as strconv.Atoi and strconv.Itoa read and write them, on 64-bit integers. */
module Strconv {

  const MAX_INT: int := 0x7fff_ffff_ffff_ffff
  const MIN_INT: int := -0x8000_0000_0000_0000

  predicate IsDigit(c: char) { '0' <= c <= '9' }

  predicate AllDigits(s: string) { forall i | 0 <= i < |s| :: IsDigit(s[i]) }

  function DigitValue(c: char): nat
    requires IsDigit(c)
  {
    c as nat - '0' as nat
  }

  function Value(s: string): nat
    requires AllDigits(s)
  {
    if s == "" then 0 else 10 * Value(s[..|s| - 1]) + DigitValue(s[|s| - 1])
  }

  function Clamp(n: int): int {
    if n > MAX_INT then MAX_INT else if n < MIN_INT then MIN_INT else n
  }

  /** The value Atoi returns beside its error: 0 for text that is not a number, the nearest bound
      for a number out of range. */
  function Atoi(s: string): (r: (int, bool))
    ensures MIN_INT <= r.0 <= MAX_INT
  {
    var signed := s != "" && (s[0] == '-' || s[0] == '+');
    var digits := if signed then s[1..] else s;
    if digits == "" || !AllDigits(digits) then (0, false)
    else
      var v: int := Value(digits);
      var n := if signed && s[0] == '-' then -v else v;
      (Clamp(n), MIN_INT <= n <= MAX_INT)
  }

  function DigitChar(d: nat): char
    requires d < 10
  {
    '0' + d as char
  }

  function Itoa(n: nat): (s: string)
    ensures s != "" && AllDigits(s)
  {
    if n < 10 then [DigitChar(n)] else Itoa(n / 10) + [DigitChar(n % 10)]
  }

  lemma {:induction false} ValueOfItoa(n: nat)
    ensures Value(Itoa(n)) == n
  {
    if n < 10 {
      assert Itoa(n)[..0] == "";
    } else {
      ValueOfItoa(n / 10);
      assert Itoa(n)[..|Itoa(n)| - 1] == Itoa(n / 10);
    }
  }

  /** Reading back what was written. */
  lemma AtoiOfItoa(n: nat)
    requires n <= MAX_INT
    ensures Atoi(Itoa(n)) == (n, true)
  {
    ValueOfItoa(n);
    assert IsDigit(Itoa(n)[0]);
  }

  /** With a sign: a minus negates, a plus changes nothing. */
  lemma AtoiOfSigned(n: nat)
    ensures n <= 0x8000_0000_0000_0000 ==>
              Atoi("-" + Itoa(n)).0 == -(n as int) && Atoi("-" + Itoa(n)).1
    ensures n <= 0x7fff_ffff_ffff_ffff ==> Atoi("+" + Itoa(n)) == (n, true)
  {
    ValueOfItoa(n);
    assert ("-" + Itoa(n))[1..] == Itoa(n) && ("+" + Itoa(n))[1..] == Itoa(n);
  }

  /** Out of range the nearest bound comes back, with an error. */
  lemma AtoiOutOfRange(n: nat)
    requires n > MAX_INT
    ensures Atoi(Itoa(n)) == (0x7fff_ffff_ffff_ffff, false)
    ensures n > MAX_INT + 1 ==> Atoi("-" + Itoa(n)) == (-0x8000_0000_0000_0000, false)
  {
    ValueOfItoa(n);
    assert IsDigit(Itoa(n)[0]);
    assert ("-" + Itoa(n))[1..] == Itoa(n);
  }

  /** Text with anything else in it is no number: zero, with an error. */
  lemma AtoiOfText(s: string, i: nat)
    requires i < |s| && !IsDigit(s[i]) && (i == 0 ==> s[0] != '-' && s[0] != '+')
    ensures Atoi(s) == (0, false)
  {
    if s[0] == '-' || s[0] == '+' {
      assert s[1..][i - 1] == s[i];
    }
  }
}
