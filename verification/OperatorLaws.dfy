// What the operators compute, in terms of the numbers and texts themselves (applyBin, runtime/eval.go;
// intArith, runtime/proccompile.go).
module OperatorLaws {
  import opened Division
  import opened TextOrder
  import opened TextNumbers
  import O = OperatorPaths
  import P = ProcSyntax

  // The one 64-bit int that differs from `n` by a multiple of 2 to the 64th.
  ghost predicate Wraps(r: int, n: int) {
    -0x8000_0000_0000_0000 <= r < 0x8000_0000_0000_0000 && (r - n) % 0x1_0000_0000_0000_0000 == 0
  }

  lemma WrapWraps(n: int)
    ensures Wraps(O.Wrap(n), n)
  {
    var m := 0x1_0000_0000_0000_0000;
    var k := n + 0x8000_0000_0000_0000;
    assert O.Wrap(n) - n == -(m * (k / m)) by { assert k == m * (k / m) + k % m; }
    assert (m * (-(k / m))) % m == 0;
  }

  lemma WrapsOnce(r1: int, r2: int, n: int)
    requires Wraps(r1, n) && Wraps(r2, n)
    ensures r1 == r2
  {
    var m := 0x1_0000_0000_0000_0000;
    var d1, d2 := (r1 - n) / m, (r2 - n) / m;
    assert r1 - n == m * d1 && r2 - n == m * d2;
    assert r1 - r2 == m * (d1 - d2);
  }

  // Sums, differences and products are those of the ints, wrapped.
  lemma IntSums<F>(fl: O.Floats<F>, a: int, b: int)
    ensures var r := O.ApplyBin(fl, O.Add, O.Int(a), O.Int(b)); r.Int? && Wraps(r.n, a + b)
    ensures var r := O.ApplyBin(fl, O.Sub, O.Int(a), O.Int(b)); r.Int? && Wraps(r.n, a - b)
    ensures var r := O.ApplyBin(fl, O.Mul, O.Int(a), O.Int(b)); r.Int? && Wraps(r.n, a * b)
  {
    WrapWraps(a + b);
    WrapWraps(a - b);
    WrapWraps(a * b);
    hide O.Wrap;
  }

  // Division truncates toward zero and, like the remainder, is 0 by zero.
  lemma IntQuotients<F>(fl: O.Floats<F>, a: int, b: int)
    ensures var q, m := O.ApplyBin(fl, O.Div, O.Int(a), O.Int(b)), O.ApplyBin(fl, O.Mod, O.Int(a), O.Int(b));
      q.Int? && m.Int? && exists exact :: Truncates(a, b, exact, m.n) && Wraps(q.n, exact)
  {
    QuotientTruncates(a, b);
    WrapWraps(Quotient(a, b));
    hide Quotient, Remainder, O.Wrap;
    assert O.ApplyBin(fl, O.Div, O.Int(a), O.Int(b)) == O.Int(O.Wrap(Quotient(a, b)));
    assert O.ApplyBin(fl, O.Mod, O.Int(a), O.Int(b)) == O.Int(Remainder(a, b));
  }

  // Shifting left multiplies and shifting right divides, downward, by a power of two; a negative count
  // gives 0 and one past the width shifts everything out.
  lemma IntShifts<F>(fl: O.Floats<F>, x: int, n: int)
    ensures var l, r := O.ApplyBin(fl, O.Shl, O.Int(x), O.Int(n)), O.ApplyBin(fl, O.Shr, O.Int(x), O.Int(n));
      l.Int? && r.Int?
      && (n < 0 ==> l.n == 0 && r.n == 0)
      && (n >= 64 ==> l.n == 0 && r.n == if x < 0 then -1 else 0)
      && (0 <= n < 64 ==> Wraps(l.n, x * TwoTo(n)) && r.n * TwoTo(n) <= x < (r.n + 1) * TwoTo(n))
  {
    if 0 <= n < 64 {
      TwoToIsPow2(n);
      O.Pow2Positive(n);
      WrapWraps(x * TwoTo(n));
      hide O.Wrap, O.Pow2;
      Downward(x, TwoTo(n));
    }
  }

  function TwoTo(n: nat): int {
    if n == 0 then 1 else TwoTo(n - 1) + TwoTo(n - 1)
  }

  lemma {:induction false} TwoToIsPow2(n: nat)
    ensures TwoTo(n) == O.Pow2(n)
  {
    if n > 0 { TwoToIsPow2(n - 1); }
  }

  lemma Downward(x: int, d: int)
    requires d > 0
    ensures O.FloorDiv(x, d) * d <= x < (O.FloorDiv(x, d) + 1) * d
  {
    assert x == d * (x / d) + x % d;
    assert (x / d + 1) * d == d * (x / d) + d;
  }

  // The bitwise operators work on the bits of their operands in two's complement.
  lemma IntBits<F>(fl: O.Floats<F>, op: O.Op, a: int, x: bv64, b: int, y: bv64)
    requires op in {O.BitAnd, O.BitOr, O.BitXor} && TwosComplement(a, x) && TwosComplement(b, y)
    ensures O.ApplyBin(fl, op, O.Int(a), O.Int(b)).Int?
    ensures TwosComplement(O.ApplyBin(fl, op, O.Int(a), O.Int(b)).n, Bitwise(op, x, y))
  {
    hide *;
    BitsOf(a, x);
    BitsOf(b, y);
    BitsApply(fl, op, a, b);
  }

  function Bitwise(op: O.Op, x: bv64, y: bv64): bv64 {
    if op == O.BitAnd then x & y else if op == O.BitOr then x | y else x ^ y
  }

  lemma BitsApply<F>(fl: O.Floats<F>, op: O.Op, a: int, b: int)
    requires op in {O.BitAnd, O.BitOr, O.BitXor}
    ensures O.ApplyBin(fl, op, O.Int(a), O.Int(b)).Int?
    ensures TwosComplement(O.ApplyBin(fl, op, O.Int(a), O.Int(b)).n, Bitwise(op, O.Bits(a), O.Bits(b)))
  {
    hide O.ApplyBin, O.Bits, O.Wrap, O.Signed, TwosComplement;
    O.IntsApply(fl, op, a, b);
    SignedIsTwos(Bitwise(op, O.Bits(a), O.Bits(b)));
  }

  // Read as a natural number, the bits of a negative int are 2 to the 64th above it.
  ghost predicate TwosComplement(n: int, bits: bv64) {
    && -0x8000_0000_0000_0000 <= n < 0x8000_0000_0000_0000
    && bits as int == if n < 0 then n + 0x1_0000_0000_0000_0000 else n
  }

  lemma SignedIsTwos(v: bv64)
    ensures TwosComplement(O.Signed(v), v)
  {
    hide O.Wrap;
    var n := v as int;
    WrapOfUnsigned(n);
  }

  lemma BitsOf(a: int, x: bv64)
    requires TwosComplement(a, x)
    ensures O.Bits(a) == x
  {
    var n := x as int;
    assert a % 0x1_0000_0000_0000_0000 == n by { Residue(a, n); }
  }

  lemma Residue(a: int, n: nat)
    requires n < 0x1_0000_0000_0000_0000 && (a == n || a == n - 0x1_0000_0000_0000_0000)
    ensures a % 0x1_0000_0000_0000_0000 == n
  {
  }

  lemma WrapOfUnsigned(n: nat)
    requires n < 0x1_0000_0000_0000_0000
    ensures O.Wrap(n) == if n < 0x8000_0000_0000_0000 then n else n - 0x1_0000_0000_0000_0000
  {
  }

  lemma IntOrders<F>(fl: O.Floats<F>, a: int, b: int)
    ensures O.ApplyBin(fl, O.Lt, O.Int(a), O.Int(b)) == O.Bool(a < b)
    ensures O.ApplyBin(fl, O.Gt, O.Int(a), O.Int(b)) == O.Bool(a > b)
    ensures O.ApplyBin(fl, O.Le, O.Int(a), O.Int(b)) == O.Bool(a <= b)
    ensures O.ApplyBin(fl, O.Ge, O.Int(a), O.Int(b)) == O.Bool(a >= b)
    ensures O.ApplyBin(fl, O.Eq, O.Int(a), O.Int(b)) == O.Bool(a == b)
    ensures O.ApplyBin(fl, O.Ne, O.Int(a), O.Int(b)) == O.Bool(a != b)
  {
  }

  // Texts are joined, compared whole and ordered by their first difference.
  lemma Texts<F>(fl: O.Floats<F>, s: string, t: string)
    ensures O.ApplyBin(fl, O.Add, O.Text(s), O.Text(t)) == O.Text(s + t)
    ensures O.ApplyBin(fl, O.Eq, O.Text(s), O.Text(t)) == O.Bool(s == t)
    ensures O.ApplyBin(fl, O.Ne, O.Text(s), O.Text(t)) == O.Bool(s != t)
    ensures O.ApplyBin(fl, O.Lt, O.Text(s), O.Text(t)) == O.Bool(FirstDifferenceLess(s, t))
    ensures O.ApplyBin(fl, O.Gt, O.Text(s), O.Text(t)) == O.Bool(FirstDifferenceLess(t, s))
    ensures O.ApplyBin(fl, O.Le, O.Text(s), O.Text(t)) == O.Bool(s == t || FirstDifferenceLess(s, t))
    ensures O.ApplyBin(fl, O.Ge, O.Text(s), O.Text(t)) == O.Bool(s == t || FirstDifferenceLess(t, s))
  {
    LessTextExact(s, t);
    LessTextExact(t, s);
    hide LessText, FirstDifferenceLess;
  }

  // Negation is the opposite, wrapped, and flipping the bits one less than it.
  lemma IntUnary<F>(fl: O.Floats<F>, a: int)
    ensures var r := O.ApplyUn(fl, O.Neg, O.Int(a)); r.Int? && Wraps(r.n, -a)
    ensures var r := O.ApplyUn(fl, O.Flip, O.Int(a)); r.Int? && Wraps(r.n, -1 - a)
  {
    WrapWraps(-a);
    WrapWraps(-1 - a);
  }

  // What counts as true.
  lemma Truths<F>(fl: O.Floats<F>, b: bool, c: bool, n: int, s: string, vs: seq<O.Value<F>>)
    ensures O.ApplyUn(fl, O.Not, O.Bool(b)) == O.Bool(!b) && O.ApplyUn(fl, O.Not, O.Nil) == O.Bool(true)
    ensures O.ApplyUn(fl, O.Not, O.Int(n)) == O.Bool(n == 0) && O.ApplyUn(fl, O.Not, O.Text(s)) == O.Bool(|s| == 0)
    ensures O.ApplyUn(fl, O.Not, O.List(vs)) == O.Bool(|vs| == 0)
    ensures O.ApplyBin(fl, O.AndAlso, O.Bool(b), O.Bool(c)) == O.Bool(b && c)
    ensures O.ApplyBin(fl, O.OrElse, O.Bool(b), O.Bool(c)) == O.Bool(b || c)
  {
  }

  // What other values are as text: joined to the empty one they give it.
  lemma AsText<F>(fl: O.Floats<F>, b: bool, n: int, v: O.Value<F>, vs: seq<O.Value<F>>)
    ensures O.ApplyBin(fl, O.Add, O.Text(""), O.Bool(b)) == O.Text(if b then "true" else "false")
    ensures O.ApplyBin(fl, O.Add, O.Text(""), O.Int(n)) == O.Text(Itoa(n))
    ensures O.ApplyBin(fl, O.Add, O.Text(""), O.Nil) == O.Text("")
    ensures O.ToStr(fl, O.List([])) == "" && O.ToStr(fl, O.List([v])) == O.ToStr(fl, v)
    ensures vs != [] ==> O.ToStr(fl, O.List([v] + vs)) == O.ToStr(fl, v) + "," + O.ToStr(fl, O.List(vs))
  {
    O.TextApply(fl, "", O.Bool(b));
    O.TextApply(fl, "", O.Int(n));
    O.TextApply(fl, "", O.Nil);
    hide O.ApplyBin;
    assert ([v] + vs)[1..] == vs;
  }

  // What they are as ints: with nothing taken away they give it.
  lemma AsInt<F>(fl: O.Floats<F>, b: bool, n: int)
    requires -0x8000_0000_0000_0000 <= n < 0x8000_0000_0000_0000
    ensures O.ApplyBin(fl, O.Sub, O.Bool(b), O.Nil) == O.Int(if b then 1 else 0)
    ensures O.ApplyBin(fl, O.Sub, O.Text(Itoa(n)), O.Nil) == O.Int(n)
  {
    AtoiItoa(n);
    hide Itoa, Atoi;
  }

  // ---- the ints of procs ----

  function OpOf(op: P.ArithOp): O.Op {
    match op
    case Add => O.Add
    case Sub => O.Sub
    case Mul => O.Mul
    case Div => O.Div
    case Mod => O.Mod
  }

  function CompareOf(op: P.CmpOp): O.Op {
    match op
    case Lt => O.Lt
    case Le => O.Le
    case Gt => O.Gt
    case Ge => O.Ge
    case Eq => O.Eq
    case Ne => O.Ne
  }

  // Where the result fits 64 bits, a proc's int operator is the generic one.
  lemma ArithIsApplyBin<F>(fl: O.Floats<F>, op: P.ArithOp, a: int, b: int)
    requires -0x8000_0000_0000_0000 <= P.Arith(op, a, b) < 0x8000_0000_0000_0000
    ensures O.ApplyBin(fl, OpOf(op), O.Int(a), O.Int(b)) == O.Int(P.Arith(op, a, b))
  {
    var r := P.Arith(op, a, b);
    WrapWraps(r);
    WrapsOnce(O.Wrap(r), r, r);
    hide O.Wrap, Quotient, Remainder;
    match op
    case Add =>
    case Sub =>
    case Mul =>
    case Div =>
    case Mod =>
  }

  lemma CompareIsApplyBin<F>(fl: O.Floats<F>, op: P.CmpOp, a: int, b: int)
    ensures O.ApplyBin(fl, CompareOf(op), O.Int(a), O.Int(b)) == O.Bool(P.Compare(op, a, b))
  {
    IntOrders(fl, a, b);
    hide O.ApplyBin;
  }

  // Subtraction undoes addition, products are repeated sums, and division with its remainder truncates
  // toward zero.
  lemma ArithLaws(a: int, b: int)
    ensures P.Arith(P.Add, P.Arith(P.Sub, a, b), b) == a && P.Arith(P.Sub, P.Arith(P.Add, a, b), b) == a
    ensures P.Arith(P.Sub, a, b) + b == a
    ensures P.Arith(P.Mul, a, 0) == 0 && P.Arith(P.Mul, a, b + 1) == P.Arith(P.Add, P.Arith(P.Mul, a, b), a)
    ensures Truncates(a, b, P.Arith(P.Div, a, b), P.Arith(P.Mod, a, b))
  {
    QuotientTruncates(a, b);
  }

  // A comparison holds by the sign of the difference.
  lemma CompareLaws(a: int, b: int)
    ensures P.Compare(P.Lt, a, b) <==> P.Arith(P.Sub, b, a) > 0
    ensures P.Compare(P.Gt, a, b) <==> P.Compare(P.Lt, b, a)
    ensures P.Compare(P.Le, a, b) <==> !P.Compare(P.Lt, b, a)
    ensures P.Compare(P.Ge, a, b) <==> !P.Compare(P.Lt, a, b)
    ensures P.Compare(P.Eq, a, b) <==> P.Compare(P.Le, a, b) && P.Compare(P.Ge, a, b)
    ensures P.Compare(P.Ne, a, b) <==> !P.Compare(P.Eq, a, b)
  {
  }
}
