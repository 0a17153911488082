// The operators of predicates and those of procs are one function (applyBin, runtime/eval.go): on the
// values both have, with ints that fit 64 bits, they answer alike.
module OperatorsAgree {
  import opened Division
  import O = OperatorPaths
  import E = Expressions

  // Records are the predicates' own, floats the procs'.
  predicate Plain(v: E.Value) {
    match v
    case VRec(_) => false
    case VList(vs) => forall i :: 0 <= i < |vs| ==> Plain(vs[i])
    case _ => true
  }

  function Lift<F>(v: E.Value): O.Value<F>
    requires Plain(v)
    decreases v, 0
  {
    match v
    case VBool(b) => O.Bool(b)
    case VInt(n) => O.Int(n)
    case VText(s) => O.Text(s)
    case VList(vs) => O.List(LiftAll(vs))
    case VNil => O.Nil
  }

  function LiftAll<F>(vs: seq<E.Value>): (r: seq<O.Value<F>>)
    requires forall i :: 0 <= i < |vs| ==> Plain(vs[i])
    ensures |r| == |vs| && forall i :: 0 <= i < |vs| ==> r[i] == Lift<F>(vs[i])
    decreases vs, 0
  {
    if vs == [] then [] else [Lift<F>(vs[0])] + LiftAll<F>(vs[1..])
  }

  function Lifted(op: E.Op): O.Op {
    match op
    case And => O.AndAlso
    case Or => O.OrElse
    case Add => O.Add
    case Sub => O.Sub
    case Mul => O.Mul
    case Div => O.Div
    case Mod => O.Mod
    case Eq => O.Eq
    case Ne => O.Ne
    case Lt => O.Lt
    case Le => O.Le
    case Gt => O.Gt
    case Ge => O.Ge
    case In => O.In
  }

  lemma {:induction false} StrAgrees<F>(fl: O.Floats<F>, v: E.Value)
    requires Plain(v)
    ensures O.ToStr(fl, Lift<F>(v)) == E.ToStr(v)
    decreases v, 1
  {
    if v.VList? { JoinedAgrees(fl, v.vs); }
  }

  lemma {:induction false} JoinedAgrees<F>(fl: O.Floats<F>, vs: seq<E.Value>)
    requires forall i :: 0 <= i < |vs| ==> Plain(vs[i])
    ensures O.Joined(fl, LiftAll<F>(vs)) == E.Joined(vs)
    decreases vs, 0
  {
    if vs != [] {
      StrAgrees(fl, vs[0]);
      JoinedAgrees(fl, vs[1..]);
      assert LiftAll<F>(vs)[1..] == LiftAll<F>(vs[1..]);
    }
  }

  lemma {:induction false} EqualAgrees<F>(fl: O.Floats<F>, a: E.Value, b: E.Value)
    requires Plain(a) && Plain(b)
    ensures O.Equal(fl, Lift<F>(a), Lift<F>(b)) == E.Equal(a, b)
    decreases a
  {
    StrAgrees(fl, a);
    StrAgrees(fl, b);
    if a.VList? && b.VList? && |a.vs| == |b.vs| {
      forall i | 0 <= i < |a.vs| ensures O.Equal(fl, Lift<F>(a).vs[i], Lift<F>(b).vs[i]) == E.Equal(a.vs[i], b.vs[i]) {
        EqualAgrees(fl, a.vs[i], b.vs[i]);
      }
    }
  }

  lemma LessAgrees<F>(fl: O.Floats<F>, a: E.Value, b: E.Value)
    requires Plain(a) && Plain(b)
    ensures O.Less(fl, Lift<F>(a), Lift<F>(b)) == E.Less(a, b)
    ensures O.LessEq(fl, Lift<F>(a), Lift<F>(b)) == E.LessEq(a, b)
  {
    StrAgrees(fl, a);
    StrAgrees(fl, b);
  }

  predicate Fits64(n: int) {
    -O.TWO_63 <= n < O.TWO_63
  }

  // The int an operator makes of its operands, if it makes one, fits.
  predicate ResultFits(op: E.Op, l: E.Value, r: E.Value) {
    var v := E.ApplyBin(op, l, r);
    v.VInt? ==> Fits64(v.n)
  }

  lemma FitsUnwrapped(n: int)
    requires Fits64(n)
    ensures O.Wrap(n) == n
  {
  }

  lemma NumbersAgree<F>(fl: O.Floats<F>, op: E.Op, l: E.Value, r: E.Value)
    requires Plain(l) && Plain(r) && ResultFits(op, l, r) && op in {E.Sub, E.Mul, E.Div, E.Mod}
    ensures Plain(E.ApplyBin(op, l, r))
    ensures O.ApplyBin(fl, Lifted(op), Lift<F>(l), Lift<F>(r)) == Lift<F>(E.ApplyBin(op, l, r))
  {
    hide Quotient, Remainder, O.And64, O.Or64, O.Xor64, O.ShiftLeft, O.ShiftRight, O.Wrap;
    assert O.ToInt(fl, Lift<F>(l)) == E.ToInt(l) && O.ToInt(fl, Lift<F>(r)) == E.ToInt(r);
    assert !Lift<F>(l).Float? && !Lift<F>(r).Float?;
    hide O.ToInt, E.ToInt;
    var x, y := E.ToInt(l), E.ToInt(r);
    match op
    case Sub => FitsUnwrapped(x - y);
    case Mul => FitsUnwrapped(x * y);
    case Div => FitsUnwrapped(Quotient(x, y));
    case Mod =>
  }

  lemma EqualitiesAgree<F>(fl: O.Floats<F>, op: E.Op, l: E.Value, r: E.Value)
    requires Plain(l) && Plain(r) && (op == E.Eq || op == E.Ne)
    ensures O.ApplyBin(fl, Lifted(op), Lift<F>(l), Lift<F>(r)) == Lift<F>(E.ApplyBin(op, l, r))
  {
    EqualAgrees(fl, l, r);
    hide O.And64, O.Or64, O.Xor64, O.ShiftLeft, O.ShiftRight, O.Wrap, O.Equal, O.Less, O.LessEq, O.ToInt, O.ToStr,
         E.Equal, E.Less, E.LessEq, E.ToInt, E.ToStr;
  }

  lemma OrdersAgree<F>(fl: O.Floats<F>, op: E.Op, l: E.Value, r: E.Value)
    requires Plain(l) && Plain(r) && op in {E.Lt, E.Le, E.Gt, E.Ge}
    ensures O.ApplyBin(fl, Lifted(op), Lift<F>(l), Lift<F>(r)) == Lift<F>(E.ApplyBin(op, l, r))
  {
    LessAgrees(fl, l, r);
    LessAgrees(fl, r, l);
    hide O.And64, O.Or64, O.Xor64, O.ShiftLeft, O.ShiftRight, O.Wrap, O.Equal, O.Less, O.LessEq, O.ToInt, O.ToStr,
         E.Equal, E.Less, E.LessEq, E.ToInt, E.ToStr;
  }

  lemma ConnectivesAgree<F>(fl: O.Floats<F>, op: E.Op, l: E.Value, r: E.Value)
    requires Plain(l) && Plain(r) && (op == E.And || op == E.Or)
    ensures O.ApplyBin(fl, Lifted(op), Lift<F>(l), Lift<F>(r)) == Lift<F>(E.ApplyBin(op, l, r))
  {
    hide O.And64, O.Or64, O.Xor64, O.ShiftLeft, O.ShiftRight, O.Wrap, O.Equal, O.Less, O.LessEq, O.ToInt, O.ToStr,
         E.Equal, E.Less, E.LessEq, E.ToInt, E.ToStr;
  }

  lemma SumsAgree<F>(fl: O.Floats<F>, l: E.Value, r: E.Value)
    requires Plain(l) && Plain(r) && ResultFits(E.Add, l, r)
    ensures Plain(E.ApplyBin(E.Add, l, r))
    ensures O.ApplyBin(fl, O.Add, Lift<F>(l), Lift<F>(r)) == Lift<F>(E.ApplyBin(E.Add, l, r))
  {
    StrAgrees(fl, l);
    StrAgrees(fl, r);
    if l.VList? && r.VList? { LiftConcat<F>(l.vs, r.vs); }
    hide O.ToStr, E.ToStr, O.And64, O.Or64, O.Xor64, O.ShiftLeft, O.ShiftRight, O.Wrap;
    var sum := E.ToInt(l) + E.ToInt(r);
    if Fits64(sum) { FitsUnwrapped(sum); }
  }

  lemma MembershipAgrees<F>(fl: O.Floats<F>, l: E.Value, r: E.Value)
    requires Plain(l) && Plain(r)
    ensures O.ApplyBin(fl, O.In, Lift<F>(l), Lift<F>(r)) == Lift<F>(E.ApplyBin(E.In, l, r))
  {
    if r.VList? {
      forall i | 0 <= i < |r.vs| ensures O.Equal(fl, Lift<F>(l), Lift<F>(r).vs[i]) == E.Equal(l, r.vs[i]) {
        EqualAgrees(fl, l, r.vs[i]);
      }
    }
    hide O.Equal, E.Equal;
  }

  // One operator, on values both languages have.
  lemma ApplyAgrees<F>(fl: O.Floats<F>, op: E.Op, l: E.Value, r: E.Value)
    requires Plain(l) && Plain(r) && ResultFits(op, l, r)
    ensures Plain(E.ApplyBin(op, l, r))
    ensures O.ApplyBin(fl, Lifted(op), Lift<F>(l), Lift<F>(r)) == Lift<F>(E.ApplyBin(op, l, r))
  {
    if op in {E.Sub, E.Mul, E.Div, E.Mod} {
      NumbersAgree(fl, op, l, r);
    } else if op == E.Add {
      SumsAgree(fl, l, r);
    } else if op == E.In {
      MembershipAgrees(fl, l, r);
    } else if op == E.Eq || op == E.Ne {
      EqualitiesAgree(fl, op, l, r);
    } else if op == E.And || op == E.Or {
      ConnectivesAgree(fl, op, l, r);
    } else {
      OrdersAgree(fl, op, l, r);
    }
  }

  lemma LiftConcat<F>(a: seq<E.Value>, b: seq<E.Value>)
    requires forall i :: 0 <= i < |a| ==> Plain(a[i])
    requires forall i :: 0 <= i < |b| ==> Plain(b[i])
    ensures forall i :: 0 <= i < |a + b| ==> Plain((a + b)[i])
    ensures LiftAll<F>(a + b) == LiftAll<F>(a) + LiftAll<F>(b)
  {
  }
}
