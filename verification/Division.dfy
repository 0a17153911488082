// Integer division as Go does it: toward zero, and total, by zero giving zero.
module Division {

  function Abs(n: int): nat {
    if n < 0 then -n else n
  }

  function Quotient(a: int, b: int): int {
    if b == 0 then 0 else if (a >= 0) == (b > 0) then Abs(a) / Abs(b) else -(Abs(a) / Abs(b))
  }

  function Remainder(a: int, b: int): int {
    if b == 0 then 0 else if a >= 0 then a % Abs(b) else -(Abs(a) % Abs(b))
  }

  // What truncation toward zero is: the remainder is smaller than the divisor and has the sign of what
  // is divided. By zero both are zero.
  ghost predicate Truncates(a: int, b: int, q: int, r: int) {
    if b == 0 then q == 0 && r == 0
    else a == b * q + r && (if b > 0 then -b < r < b else b < r < -b) && (r > 0 ==> a > 0) && (r < 0 ==> a < 0)
  }

  lemma QuotientTruncates(a: int, b: int)
    ensures Truncates(a, b, Quotient(a, b), Remainder(a, b))
  {
    if b != 0 {
      var q, m, p := Divided(Abs(a), Abs(b));
      ProductOf(b, q, a >= 0, Quotient(a, b));
      Signed(a, b, p, m, Quotient(a, b), Remainder(a, b));
    }
  }

  lemma Divided(x: nat, y: nat) returns (q: int, m: int, p: int)
    requires y > 0
    ensures q == x / y && m == x % y && p == y * q && x == p + m && 0 <= m < y && p >= 0
  {
    q, m := x / y, x % y;
    p := y * q;
  }

  lemma Signed(a: int, b: int, p: int, m: int, quotient: int, remainder: int)
    requires b != 0 && Abs(a) == p + m && 0 <= m < Abs(b) && p >= 0
    requires b * quotient == if a >= 0 then p else -p
    requires remainder == if a >= 0 then m else -m
    ensures Truncates(a, b, quotient, remainder)
  {
  }

  lemma ProductOf(b: int, q: int, up: bool, quotient: int)
    requires b != 0 && quotient == if up == (b > 0) then q else -q
    ensures b * quotient == if up then Abs(b) * q else -(Abs(b) * q)
  {
    if b > 0 { ProductSigns(b, q); } else { ProductSigns(-b, q); }
  }

  lemma ProductSigns(y: int, q: int)
    ensures y * q == (-y) * (-q) && -(y * q) == y * (-q) && -(y * q) == (-y) * q
  {
  }

  // Nothing else truncates so.
  lemma TruncatesOnce(a: int, b: int, q1: int, r1: int, q2: int, r2: int)
    requires Truncates(a, b, q1, r1) && Truncates(a, b, q2, r2)
    ensures q1 == q2 && r1 == r2
  {
    if b != 0 {
      var d := q1 - q2;
      assert b * d == r2 - r1 by { assert b * d == b * q1 - b * q2; }
      if d >= 1 { Grows(b, d); } else if d <= -1 { Grows(b, -d); ProductSigns(b, d); }
    }
  }

  lemma Grows(b: int, d: int)
    requires b != 0 && d >= 1
    ensures if b > 0 then b * d >= b else b * d <= b
  {
    assert b * d == b + b * (d - 1);
  }
}
