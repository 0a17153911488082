// Integers as decimal text (itoa and the integer half of parseNumericText, runtime/eval.go).
module TextNumbers {

  predicate IsDigit(c: char) {
    '0' <= c <= '9'
  }

  function DigitOf(n: nat): (c: char)
    requires n < 10
    ensures IsDigit(c)
  {
    '0' + n as char
  }

  function Digits(n: nat): (s: string)
    ensures s != [] && forall c :: c in s ==> IsDigit(c)
  {
    if n < 10 then [DigitOf(n)] else Digits(n / 10) + [DigitOf(n % 10)]
  }

  function Itoa(n: int): (s: string)
    ensures s != []
  {
    if n < 0 then "-" + Digits(-n) else Digits(n)
  }

  predicate AllDigits(s: string) {
    s != [] && forall c :: c in s ==> IsDigit(c)
  }

  function DigitValue(c: char): nat
    requires IsDigit(c)
  {
    c as int - '0' as int
  }

  function NatOf(s: string): nat
    requires forall c :: c in s ==> IsDigit(c)
  {
    if s == [] then 0 else
      assert s[|s| - 1] in s;
      10 * NatOf(s[..|s| - 1]) + DigitValue(s[|s| - 1])
  }

  // A signed run of digits; any other text is 0.
  function Atoi(s: string): int {
    if AllDigits(s) then NatOf(s)
    else if s != [] && s[0] == '-' && AllDigits(s[1..]) then 0 - NatOf(s[1..])
    else if s != [] && s[0] == '+' && AllDigits(s[1..]) then NatOf(s[1..])
    else 0
  }

  lemma {:induction false} NatOfDigits(n: nat)
    ensures NatOf(Digits(n)) == n
  {
    if n < 10 {
      assert Digits(n)[..0] == [];
    } else {
      NatOfDigits(n / 10);
      var s := Digits(n);
      assert s[..|s| - 1] == Digits(n / 10) && s[|s| - 1] == DigitOf(n % 10);
    }
  }

  lemma AtoiItoa(n: int)
    ensures Atoi(Itoa(n)) == n
  {
    NatOfDigits(if n < 0 then -n else n);
    if n < 0 {
      assert Itoa(n)[0] == '-' && Itoa(n)[1..] == Digits(-n);
      assert !IsDigit(Itoa(n)[0]);
    }
  }

  // Decimal notation: a digit stands for itself, each further digit is worth ten of the next, and a
  // negative int is its opposite behind a minus sign.
  lemma ItoaIsDecimal(n: nat, d: nat)
    requires d < 10
    ensures Itoa(d) == ["0123456789"[d]]
    ensures n > 0 ==> Itoa(10 * n + d) == Itoa(n) + Itoa(d) && Itoa(0 - n) == "-" + Itoa(n)
  {
    assert (10 * n + d) / 10 == n && (10 * n + d) % 10 == d;
  }

  // Reading a text: a sign may lead, zeros in front do not count, and what is no run of digits is 0.
  lemma AtoiSigns(s: string)
    ensures Atoi(s) != 0 ==> AllDigits(s) || (s[0] in "+-" && AllDigits(s[1..]))
    ensures AllDigits(s) ==> Atoi("+" + s) == Atoi(s) && Atoi("-" + s) == -Atoi(s) && Atoi("0" + s) == Atoi(s)
  {
    if AllDigits(s) {
      var plus, minus := "+" + s, "-" + s;
      assert plus[1..] == s && minus[1..] == s && plus[0] == '+' && minus[0] == '-';
      assert plus[0] in plus && minus[0] in minus;
      LeadingZero(s);
    }
  }

  lemma {:induction false} LeadingZero(s: string)
    requires forall c :: c in s ==> IsDigit(c)
    ensures NatOf("0" + s) == NatOf(s)
  {
    if s == [] {
      assert ("0" + s)[..0] == [];
    } else {
      var most := s[..|s| - 1];
      LeadingZero(most);
      assert ("0" + s)[..|s|] == "0" + most;
    }
  }

  lemma ItoaInjective(a: int, b: int)
    ensures Itoa(a) == Itoa(b) <==> a == b
  {
    AtoiItoa(a);
    AtoiItoa(b);
  }
}
