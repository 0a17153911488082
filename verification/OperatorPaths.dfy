// The proc engine's compiled operators against the generic ones (runtime/proccompile.go,
// runtime/eval.go). Floats are any type with the operations used.
module OperatorPaths {
  import opened Options
  import opened Division
  import opened TextOrder
  import opened TextNumbers

  datatype Value<F> = Nil | Bool(b: bool) | Int(n: int) | Float(f: F) | Text(s: string) | List(vs: seq<Value<F>>)

  datatype Floats<!F> = Floats(
    add: (F, F) -> F, sub: (F, F) -> F, mul: (F, F) -> F, div: (F, F) -> F, neg: F -> F,
    eq: (F, F) -> bool, lt: (F, F) -> bool, le: (F, F) -> bool, isZero: F -> bool,
    ofInt: int -> F, ofText: string -> F, toInt: F -> int, toText: F -> string)

  datatype Op = AndAlso | OrElse | Add | Sub | Mul | Div | Mod | Eq | Ne | Lt | Le | Gt | Ge | In
              | BitAnd | BitOr | BitXor | Shl | Shr

  datatype UnOp = Not | Neg | Flip

  datatype Expr<F> =
    | Lit(v: Value<F>)
    | Slot(i: nat)
    | ListOf(args: seq<Expr<F>>)
    | Bin(op: Op, l: Expr<F>, r: Expr<F>)
    | Un(u: UnOp, x: Expr<F>)

  // ---- 64-bit ints ----

  const TWO_63: int := 0x8000_0000_0000_0000
  const TWO_64: int := 0x1_0000_0000_0000_0000

  function Wrap(n: int): int {
    (n + TWO_63) % TWO_64 - TWO_63
  }

  function Bits(n: int): bv64 {
    (n % TWO_64) as bv64
  }

  function Signed(b: bv64): int {
    Wrap(b as int)
  }

  function And64(a: int, b: int): int {
    Signed(Bits(a) & Bits(b))
  }

  function Or64(a: int, b: int): int {
    Signed(Bits(a) | Bits(b))
  }

  function Xor64(a: int, b: int): int {
    Signed(Bits(a) ^ Bits(b))
  }

  function Times(a: int, b: int): int {
    Wrap(a * b)
  }

  function DividedBy(a: int, b: int): int {
    Wrap(Quotient(a, b))
  }

  function Pow2(n: nat): nat {
    if n == 0 then 1 else 2 * Pow2(n - 1)
  }

  // A negative count shifts to 0; a count past the width shifts everything out.
  function ShiftLeft(x: int, n: int): int {
    if n < 0 || n >= 64 then 0 else Wrap(x * Pow2(n))
  }

  function FloorDiv(x: int, d: int): int
    requires d > 0
  {
    x / d
  }

  lemma {:induction false} Pow2Positive(n: nat)
    ensures Pow2(n) > 0
  {
    if n > 0 { Pow2Positive(n - 1); }
  }

  function ShiftRight(x: int, n: int): int {
    if n < 0 then 0
    else if n >= 64 then if x < 0 then -1 else 0
    else
      Pow2Positive(n);
      FloorDiv(x, Pow2(n))
  }

  // ---- the generic operators ----

  function ToInt<F>(fl: Floats<F>, v: Value<F>): int {
    match v
    case Int(n) => n
    case Float(f) => fl.toInt(f)
    case Bool(b) => if b then 1 else 0
    case Text(s) => Atoi(s)
    case _ => 0
  }

  function ToFloat<F>(fl: Floats<F>, v: Value<F>): F {
    match v
    case Float(f) => f
    case Text(s) => fl.ofText(s)
    case _ => fl.ofInt(ToInt(fl, v))
  }

  function ToStr<F>(fl: Floats<F>, v: Value<F>): string {
    match v
    case Text(s) => s
    case Int(n) => Itoa(n)
    case Float(f) => fl.toText(f)
    case Bool(b) => if b then "true" else "false"
    case List(vs) => Joined(fl, vs)
    case Nil => ""
  }

  function Joined<F>(fl: Floats<F>, vs: seq<Value<F>>): string {
    if vs == [] then "" else if |vs| == 1 then ToStr(fl, vs[0]) else ToStr(fl, vs[0]) + "," + Joined(fl, vs[1..])
  }

  predicate Truthy<F>(fl: Floats<F>, v: Value<F>) {
    match v
    case Nil => false
    case Bool(b) => b
    case Int(n) => n != 0
    case Float(f) => !fl.isZero(f)
    case Text(s) => s != ""
    case List(vs) => vs != []
  }

  predicate Equal<F>(fl: Floats<F>, a: Value<F>, b: Value<F>) {
    if a.List? then b.List? && |a.vs| == |b.vs| && forall i :: 0 <= i < |a.vs| ==> Equal(fl, a.vs[i], b.vs[i])
    else if b.List? then false
    else if a.Text? then a.s == ToStr(fl, b)
    else if b.Text? then ToStr(fl, a) == b.s
    else if a.Bool? then a.b == Truthy(fl, b)
    else if a.Float? || b.Float? then fl.eq(ToFloat(fl, a), ToFloat(fl, b))
    else ToInt(fl, a) == ToInt(fl, b)
  }

  predicate Less<F>(fl: Floats<F>, a: Value<F>, b: Value<F>) {
    if a.Text? || b.Text? then LessText(ToStr(fl, a), ToStr(fl, b))
    else if a.Float? || b.Float? then fl.lt(ToFloat(fl, a), ToFloat(fl, b))
    else ToInt(fl, a) < ToInt(fl, b)
  }

  predicate LessEq<F>(fl: Floats<F>, a: Value<F>, b: Value<F>) {
    if a.Text? || b.Text? then LessText(ToStr(fl, a), ToStr(fl, b)) || ToStr(fl, a) == ToStr(fl, b)
    else if a.Float? || b.Float? then fl.le(ToFloat(fl, a), ToFloat(fl, b))
    else ToInt(fl, a) <= ToInt(fl, b)
  }

  function ApplyBin<F>(fl: Floats<F>, op: Op, l: Value<F>, r: Value<F>): Value<F> {
    var floats := l.Float? || r.Float?;
    var x, y := ToInt(fl, l), ToInt(fl, r);
    match op
    case AndAlso => Bool(Truthy(fl, l) && Truthy(fl, r))
    case OrElse => Bool(Truthy(fl, l) || Truthy(fl, r))
    case Add =>
      if l.List? && r.List? then List(l.vs + r.vs)
      else if l.Text? || r.Text? then Text(ToStr(fl, l) + ToStr(fl, r))
      else if floats then Float(fl.add(ToFloat(fl, l), ToFloat(fl, r)))
      else Int(Wrap(x + y))
    case Sub => if floats then Float(fl.sub(ToFloat(fl, l), ToFloat(fl, r))) else Int(Wrap(x - y))
    case Mul => if floats then Float(fl.mul(ToFloat(fl, l), ToFloat(fl, r))) else Int(Times(x, y))
    case Div => if floats then Float(fl.div(ToFloat(fl, l), ToFloat(fl, r))) else Int(DividedBy(x, y))
    case Mod => Int(Remainder(x, y))
    case Eq => Bool(Equal(fl, l, r))
    case Ne => Bool(!Equal(fl, l, r))
    case Lt => Bool(Less(fl, l, r))
    case Le => Bool(LessEq(fl, l, r))
    case Gt => Bool(Less(fl, r, l))
    case Ge => Bool(LessEq(fl, r, l))
    case In => Bool(r.List? && exists i :: 0 <= i < |r.vs| && Equal(fl, l, r.vs[i]))
    case BitAnd => Int(And64(x, y))
    case BitOr => Int(Or64(x, y))
    case BitXor => Int(Xor64(x, y))
    case Shl => Int(ShiftLeft(x, y))
    case Shr => Int(ShiftRight(x, y))
  }

  function Negate<F>(fl: Floats<F>, v: Value<F>): Value<F> {
    if v.Float? then Float(fl.neg(v.f)) else Int(Wrap(-ToInt(fl, v)))
  }

  function ApplyUn<F>(fl: Floats<F>, u: UnOp, v: Value<F>): Value<F> {
    match u
    case Not => Bool(!Truthy(fl, v))
    case Neg => Negate(fl, v)
    case Flip => Int(Wrap(-1 - ToInt(fl, v)))
  }

  // The reference: fold the operators over the tree, && and || deciding early.
  function Eval<F>(fl: Floats<F>, e: Expr<F>, env: seq<Value<F>>): Value<F>
    decreases e, 0
  {
    match e
    case Lit(v) => v
    case Slot(i) => if i < |env| then env[i] else Nil
    case ListOf(args) => List(EvalAll(fl, args, env))
    case Bin(op, l, r) =>
      if op == AndAlso && !Truthy(fl, Eval(fl, l, env)) then Bool(false)
      else if op == OrElse && Truthy(fl, Eval(fl, l, env)) then Bool(true)
      else if op == AndAlso || op == OrElse then Bool(Truthy(fl, Eval(fl, r, env)))
      else ApplyBin(fl, op, Eval(fl, l, env), Eval(fl, r, env))
    case Un(u, x) => ApplyUn(fl, u, Eval(fl, x, env))
  }

  function EvalAll<F>(fl: Floats<F>, es: seq<Expr<F>>, env: seq<Value<F>>): (vs: seq<Value<F>>)
    ensures |vs| == |es|
    decreases es, 0
  {
    if es == [] then [] else [Eval(fl, es[0], env)] + EvalAll(fl, es[1..], env)
  }

  // ---- native ints ----

  predicate IntOp(op: Op) {
    op in {Add, Sub, Mul, Div, Mod, BitAnd, BitOr, BitXor, Shl, Shr}
  }

  // Statically an int: a literal, an int slot, or an arithmetic or bitwise operator over ints.
  predicate IsInt<F>(e: Expr<F>, ints: set<nat>) {
    match e
    case Lit(v) => v.Int?
    case Slot(i) => i in ints
    case Bin(op, l, r) => IntOp(op) && IsInt(l, ints) && IsInt(r, ints)
    case Un(u, x) => u != Not && IsInt(x, ints)
    case _ => false
  }

  function IntArith(op: Op, a: int, b: int): int
    requires IntOp(op)
  {
    match op
    case Add => Wrap(a + b)
    case Sub => Wrap(a - b)
    case Mul => Times(a, b)
    case Div => DividedBy(a, b)
    case Mod => Remainder(a, b)
    case BitAnd => And64(a, b)
    case BitOr => Or64(a, b)
    case BitXor => Xor64(a, b)
    case Shl => ShiftLeft(a, b)
    case Shr => ShiftRight(a, b)
  }

  // What the compiler knows of the slots: the int slots hold ints.
  predicate Holds<F>(env: seq<Value<F>>, ints: set<nat>) {
    forall i :: i in ints ==> i < |env| && env[i].Int?
  }

  function IntEval<F>(e: Expr<F>, ints: set<nat>, env: seq<Value<F>>): int
    requires IsInt(e, ints) && Holds(env, ints)
  {
    match e
    case Lit(v) => v.n
    case Slot(i) => env[i].n
    case Bin(op, l, r) => IntArith(op, IntEval(l, ints, env), IntEval(r, ints, env))
    case Un(u, x) => if u == Flip then Wrap(-1 - IntEval(x, ints, env)) else Wrap(-IntEval(x, ints, env))
  }

  lemma IntsApply<F>(fl: Floats<F>, op: Op, a: int, b: int)
    requires IntOp(op)
    ensures ApplyBin(fl, op, Int(a), Int(b)) == Int(IntArith(op, a, b))
  {
    hide Wrap, And64, Or64, Xor64, Times, DividedBy, Remainder, ShiftLeft, ShiftRight, Equal, Less, LessEq;
  }

  lemma TextApply<F>(fl: Floats<F>, s: string, v: Value<F>)
    ensures ApplyBin(fl, Add, Text(s), v) == Text(s + ToStr(fl, v))
  {
  }

  lemma {:induction false} NativeIntIsGeneric<F>(fl: Floats<F>, e: Expr<F>, ints: set<nat>, env: seq<Value<F>>)
    requires IsInt(e, ints) && Holds(env, ints)
    ensures Eval(fl, e, env) == Int(IntEval(e, ints, env))
  {
    hide ApplyBin, IntArith, Wrap;
    match e
    case Lit(_) =>
    case Slot(_) =>
    case Bin(op, l, r) =>
      NativeIntIsGeneric(fl, l, ints, env);
      NativeIntIsGeneric(fl, r, ints, env);
      IntsApply(fl, op, IntEval(l, ints, env), IntEval(r, ints, env));
    case Un(_, x) => NativeIntIsGeneric(fl, x, ints, env);
  }

  // ---- tagged numbers ----

  datatype Num<F> = NInt(i: int) | NFloat(f: F) | NBoxed(v: Value<F>)

  function NumOf<F>(v: Value<F>): Num<F> {
    match v
    case Int(n) => NInt(n)
    case Float(f) => NFloat(f)
    case _ => NBoxed(v)
  }

  function Box<F>(n: Num<F>): Value<F> {
    match n
    case NInt(i) => Int(i)
    case NFloat(f) => Float(f)
    case NBoxed(v) => v
  }

  predicate ArithOp(op: Op) {
    op in {Add, Sub, Mul, Div, Mod}
  }

  predicate ArithNode<F>(e: Expr<F>) {
    (e.Bin? && ArithOp(e.op)) || (e.Un? && e.u == Neg)
  }

  function NumBin<F>(fl: Floats<F>, op: Op, a: Num<F>, b: Num<F>): Num<F>
    requires ArithOp(op) && !a.NBoxed? && !b.NBoxed?
  {
    if op != Mod && (a.NFloat? || b.NFloat?) then
      var x := if a.NInt? then fl.ofInt(a.i) else a.f;
      var y := if b.NInt? then fl.ofInt(b.i) else b.f;
      match op
      case Add => NFloat(fl.add(x, y))
      case Sub => NFloat(fl.sub(x, y))
      case Mul => NFloat(fl.mul(x, y))
      case _ => NFloat(fl.div(x, y))
    else
      var x := if a.NFloat? then fl.toInt(a.f) else a.i;
      var y := if b.NFloat? then fl.toInt(b.f) else b.i;
      match op
      case Add => NInt(Wrap(x + y))
      case Sub => NInt(Wrap(x - y))
      case Mul => NInt(Times(x, y))
      case Div => NInt(DividedBy(x, y))
      case _ => NInt(Remainder(x, y))
  }

  lemma NumBinIsGeneric<F>(fl: Floats<F>, op: Op, a: Num<F>, b: Num<F>)
    requires ArithOp(op) && !a.NBoxed? && !b.NBoxed?
    ensures Box(NumBin(fl, op, a, b)) == ApplyBin(fl, op, Box(a), Box(b))
  {
  }

  // ---- joined texts ----

  // A `+` chain from a text literal: the text and what is added to it, in order.
  function ConcatParts<F>(e: Expr<F>): (parts: Option<(string, seq<Expr<F>>)>)
    ensures parts.Some? ==> forall i :: 0 <= i < |parts.value.1| ==> parts.value.1[i] < e
  {
    match e
    case Lit(v) => if v.Text? then Some((v.s, [])) else None
    case Bin(op, l, r) =>
      var left := ConcatParts(l);
      if op == Add && left.Some? then Some((left.value.0, left.value.1 + [r])) else None
    case _ => None
  }

  // A `+` chain from a local: what is added to it, in order.
  function AppendSpine<F>(e: Expr<F>, target: nat): Option<seq<Expr<F>>> {
    match e
    case Slot(i) => if i == target then Some([]) else None
    case Bin(op, l, r) =>
      var left := AppendSpine(l, target);
      if op == Add && left.Some? then Some(left.value + [r]) else None
    case _ => None
  }

  function Texts<F>(fl: Floats<F>, vs: seq<Value<F>>): string {
    if vs == [] then "" else Texts(fl, vs[..|vs| - 1]) + ToStr(fl, vs[|vs| - 1])
  }

  lemma {:induction false} EvalAllSnoc<F>(fl: Floats<F>, es: seq<Expr<F>>, e: Expr<F>, env: seq<Value<F>>)
    ensures EvalAll(fl, es + [e], env) == EvalAll(fl, es, env) + [Eval(fl, e, env)]
  {
    if es == [] {
      assert [e][1..] == [];
    } else {
      EvalAllSnoc(fl, es[1..], e, env);
      assert (es + [e])[1..] == es[1..] + [e];
    }
  }

  lemma TextsSnoc<F>(fl: Floats<F>, vs: seq<Value<F>>, v: Value<F>)
    ensures Texts(fl, vs + [v]) == Texts(fl, vs) + ToStr(fl, v)
  {
    assert (vs + [v])[..|vs|] == vs;
  }

  // One more `+`: its right operand's text goes after the texts before it.
  lemma PartAdded<F>(fl: Floats<F>, head: string, parts: seq<Expr<F>>, e: Expr<F>, env: seq<Value<F>>)
    ensures ApplyBin(fl, Add, Text(head + Texts(fl, EvalAll(fl, parts, env))), Eval(fl, e, env))
      == Text(head + Texts(fl, EvalAll(fl, parts + [e], env)))
  {
    hide ApplyBin, ToStr, Texts, EvalAll, Eval;
    var ts, v := Texts(fl, EvalAll(fl, parts, env)), Eval(fl, e, env);
    EvalAllSnoc(fl, parts, e, env);
    TextsSnoc(fl, EvalAll(fl, parts, env), v);
    TextApply(fl, head + ts, v);
    assert (head + ts) + ToStr(fl, v) == head + (ts + ToStr(fl, v));
  }

  lemma NothingAdded<F>(fl: Floats<F>, head: string, env: seq<Value<F>>)
    ensures head + Texts(fl, EvalAll(fl, [], env)) == head
  {
  }

  lemma AddMeans<F>(fl: Floats<F>, l: Expr<F>, r: Expr<F>, env: seq<Value<F>>)
    ensures Eval(fl, Bin(Add, l, r), env) == ApplyBin(fl, Add, Eval(fl, l, env), Eval(fl, r, env))
  {
  }

  // Joining the parts once is adding them one by one.
  lemma {:induction false} JoinedIsGeneric<F>(fl: Floats<F>, e: Expr<F>, env: seq<Value<F>>)
    requires ConcatParts(e).Some?
    ensures Eval(fl, e, env) == Text(ConcatParts(e).value.0 + Texts(fl, EvalAll(fl, ConcatParts(e).value.1, env)))
  {
    if e.Bin? {
      hide Eval, ApplyBin, Texts, EvalAll;
      JoinedIsGeneric(fl, e.l, env);
      AddMeans(fl, e.l, e.r, env);
      PartAdded(fl, ConcatParts(e.l).value.0, ConcatParts(e.l).value.1, e.r, env);
    } else {
      NothingAdded(fl, e.v.s, env);
    }
  }

  // `x = x + e1 + …` on a text appends the parts' texts to it.
  lemma {:induction false} AppendIsGeneric<F>(fl: Floats<F>, e: Expr<F>, target: nat, env: seq<Value<F>>)
    requires AppendSpine(e, target).Some? && target < |env| && env[target].Text?
    ensures Eval(fl, e, env) == Text(env[target].s + Texts(fl, EvalAll(fl, AppendSpine(e, target).value, env)))
  {
    if e.Bin? {
      hide Eval, ApplyBin, Texts, EvalAll;
      AppendIsGeneric(fl, e.l, target, env);
      AddMeans(fl, e.l, e.r, env);
      PartAdded(fl, env[target].s, AppendSpine(e.l, target).value, e.r, env);
    } else {
      NothingAdded(fl, env[target].s, env);
    }
  }

  // ---- literal sets ----

  function LitList<F>(es: seq<Expr<F>>): Option<seq<Value<F>>> {
    if es == [] then Some([])
    else
      var rest := LitList(es[1..]);
      if es[0].Lit? && rest.Some? then Some([es[0].v] + rest.value) else None
  }

  // `x in [literals]` by set membership, when every literal is a text, or every one an int, and x is
  // of their kind.
  function SetLookup<F>(vs: seq<Value<F>>, x: Value<F>): Option<bool> {
    if x.Text? && (forall i :: 0 <= i < |vs| ==> vs[i].Text?) then
      Some(x.s in set i | 0 <= i < |vs| :: vs[i].s)
    else if x.Int? && (forall i :: 0 <= i < |vs| ==> vs[i].Int?) then
      Some(x.n in set i | 0 <= i < |vs| :: vs[i].n)
    else None
  }

  lemma SetLookupIsScan<F>(fl: Floats<F>, vs: seq<Value<F>>, x: Value<F>)
    requires SetLookup(vs, x).Some?
    ensures ApplyBin(fl, In, x, List(vs)) == Bool(SetLookup(vs, x).value)
  {
    if SetLookup(vs, x).value {
      var i :| 0 <= i < |vs| && vs[i] == x;
      assert Equal(fl, x, vs[i]);
    }
  }

  lemma {:induction false} LitListValue<F>(fl: Floats<F>, es: seq<Expr<F>>, env: seq<Value<F>>)
    requires LitList(es).Some?
    ensures EvalAll(fl, es, env) == LitList(es).value
  {
    if es != [] { LitListValue(fl, es[1..], env); }
  }

  // ---- the compiled tree ----

  function FastInt(op: Op, a: int, b: int): Option<bool> {
    match op
    case Lt => Some(a < b)
    case Le => Some(a <= b)
    case Gt => Some(a > b)
    case Ge => Some(a >= b)
    case Eq => Some(a == b)
    case Ne => Some(a != b)
    case _ => None
  }

  function FastText(op: Op, a: string, b: string): Option<bool> {
    match op
    case Lt => Some(LessText(a, b))
    case Le => Some(LessText(a, b) || a == b)
    case Gt => Some(LessText(b, a))
    case Ge => Some(LessText(b, a) || a == b)
    case Eq => Some(a == b)
    case Ne => Some(a != b)
    case _ => None
  }

  // One operator over evaluated operands, by its fast path where there is one.
  function Dispatch<F>(fl: Floats<F>, op: Op, l: Value<F>, r: Value<F>): Value<F> {
    if l.Int? && r.Int? && IntOp(op) then Int(IntArith(op, l.n, r.n))
    else if l.Int? && r.Int? && FastInt(op, l.n, r.n).Some? then Bool(FastInt(op, l.n, r.n).value)
    else if l.Text? && r.Text? && op == Add then Text(l.s + r.s)
    else if l.Text? && r.Text? && FastText(op, l.s, r.s).Some? then Bool(FastText(op, l.s, r.s).value)
    else ApplyBin(fl, op, l, r)
  }

  lemma DispatchIsGeneric<F>(fl: Floats<F>, op: Op, l: Value<F>, r: Value<F>)
    ensures Dispatch(fl, op, l, r) == ApplyBin(fl, op, l, r)
  {
    hide IntArith, Wrap, And64, Or64, Xor64, Times, DividedBy, Remainder, ShiftLeft, ShiftRight;
    if l.Int? && r.Int? && IntOp(op) {
      IntsApply(fl, op, l.n, r.n);
    } else if l.Text? && r.Text? && op == Add {
      TextApply(fl, l.s, r);
    } else if l.Int? && r.Int? {
      IntsCompare(fl, op, l.n, r.n);
    } else if l.Text? && r.Text? {
      TextsCompare(fl, op, l.s, r.s);
    }
  }

  lemma IntsCompare<F>(fl: Floats<F>, op: Op, a: int, b: int)
    ensures FastInt(op, a, b).Some? ==> ApplyBin(fl, op, Int(a), Int(b)) == Bool(FastInt(op, a, b).value)
  {
    hide Wrap, And64, Or64, Xor64, Times, DividedBy, Remainder, ShiftLeft, ShiftRight;
  }

  lemma TextsCompare<F>(fl: Floats<F>, op: Op, a: string, b: string)
    ensures FastText(op, a, b).Some? ==> ApplyBin(fl, op, Text(a), Text(b)) == Bool(FastText(op, a, b).value)
  {
    hide Wrap, And64, Or64, Xor64, Times, DividedBy, Remainder, ShiftLeft, ShiftRight, LessText, Atoi;
  }

  function Compiled<F>(fl: Floats<F>, e: Expr<F>, ints: set<nat>, env: seq<Value<F>>): Value<F>
    requires Holds(env, ints)
    decreases e, 2
  {
    if IsInt(e, ints) then Int(IntEval(e, ints, env))
    else
      match e
      case Lit(v) => v
      case Slot(i) => if i < |env| then env[i] else Nil
      case ListOf(args) => List(CompiledAll(fl, args, ints, env))
      case Un(u, x) => ApplyUn(fl, u, Compiled(fl, x, ints, env))
      case Bin(op, l, r) =>
        var parts := ConcatParts(e);
        if parts.Some? && |parts.value.1| >= 2 then
          Text(parts.value.0 + Texts(fl, CompiledParts(fl, e, parts.value.1, ints, env)))
        else if op == AndAlso
          then Bool(Truthy(fl, Compiled(fl, l, ints, env)) && Truthy(fl, Compiled(fl, r, ints, env)))
        else if op == OrElse then Bool(Truthy(fl, Compiled(fl, l, ints, env)) || Truthy(fl, Compiled(fl, r, ints, env)))
        else if ArithOp(op) && (ArithNode(l) || ArithNode(r)) then Box(NumEval(fl, e, ints, env))
        else if op == In && r.ListOf? && LitList(r.args).Some? then
          var x := Compiled(fl, l, ints, env);
          if SetLookup(LitList(r.args).value, x).Some? then Bool(SetLookup(LitList(r.args).value, x).value)
          else ApplyBin(fl, op, x, List(LitList(r.args).value))
        else Dispatch(fl, op, Compiled(fl, l, ints, env), Compiled(fl, r, ints, env))
  }

  function CompiledAll<F>(fl: Floats<F>, es: seq<Expr<F>>, ints: set<nat>, env: seq<Value<F>>): seq<Value<F>>
    requires Holds(env, ints)
    decreases es, 0
  {
    if es == [] then [] else [Compiled(fl, es[0], ints, env)] + CompiledAll(fl, es[1..], ints, env)
  }

  // The parts of a joined text, each compiled on its own.
  function CompiledParts<F>(fl: Floats<F>, e: Expr<F>, es: seq<Expr<F>>, ints: set<nat>, env: seq<Value<F>>):
          seq<Value<F>>
    requires Holds(env, ints) && forall i :: 0 <= i < |es| ==> es[i] < e
    decreases e, 1, |es|
  {
    if es == [] then [] else [Compiled(fl, es[0], ints, env)] + CompiledParts(fl, e, es[1..], ints, env)
  }

  // An arithmetic tree evaluated without boxing; a leaf is evaluated as a value.
  function NumEval<F>(fl: Floats<F>, e: Expr<F>, ints: set<nat>, env: seq<Value<F>>): Num<F>
    requires Holds(env, ints)
    decreases e, if ArithNode(e) then 1 else 3
  {
    if IsInt(e, ints) then NInt(IntEval(e, ints, env))
    else if e.Bin? && ArithOp(e.op) then
      var a, b := NumEval(fl, e.l, ints, env), NumEval(fl, e.r, ints, env);
      if a.NBoxed? || b.NBoxed? then NumOf(ApplyBin(fl, e.op, Box(a), Box(b))) else NumBin(fl, e.op, a, b)
    else if e.Un? && e.u == Neg then
      var n := NumEval(fl, e.x, ints, env);
      match n
      case NInt(i) => NInt(Wrap(-i))
      case NFloat(f) => NFloat(fl.neg(f))
      case NBoxed(v) => NumOf(Negate(fl, v))
    else NumOf(Compiled(fl, e, ints, env))
  }

  // Every compiled expression tree gives what folding the generic operators over it gives.
  lemma {:induction false} CompiledIsGeneric<F>(fl: Floats<F>, e: Expr<F>, ints: set<nat>, env: seq<Value<F>>)
    requires Holds(env, ints)
    ensures Compiled(fl, e, ints, env) == Eval(fl, e, env)
    decreases e, 2
  {
    if IsInt(e, ints) {
      NativeIntIsGeneric(fl, e, ints, env);
    } else {
      match e
      case Lit(_) =>
      case Slot(_) =>
      case ListOf(args) => CompiledAllGeneric(fl, args, ints, env);
      case Un(_, x) => CompiledIsGeneric(fl, x, ints, env);
      case Bin(op, l, r) =>
        var parts := ConcatParts(e);
        if parts.Some? && |parts.value.1| >= 2 {
          CompiledPartsGeneric(fl, e, parts.value.1, ints, env);
          JoinedIsGeneric(fl, e, env);
        } else {
          CompiledIsGeneric(fl, l, ints, env);
          CompiledIsGeneric(fl, r, ints, env);
          DispatchIsGeneric(fl, op, Eval(fl, l, env), Eval(fl, r, env));
          if ArithOp(op) { NumIsGeneric(fl, e, ints, env); }
          if op == In && r.ListOf? && LitList(r.args).Some? {
            LitListValue(fl, r.args, env);
            if SetLookup(LitList(r.args).value, Eval(fl, l, env)).Some? {
              SetLookupIsScan(fl, LitList(r.args).value, Eval(fl, l, env));
            }
          }
        }
    }
  }

  lemma {:induction false} CompiledAllGeneric<F>(fl: Floats<F>, es: seq<Expr<F>>, ints: set<nat>, env: seq<Value<F>>)
    requires Holds(env, ints)
    ensures CompiledAll(fl, es, ints, env) == EvalAll(fl, es, env)
    decreases es, 0
  {
    if es != [] { CompiledIsGeneric(fl, es[0], ints, env); CompiledAllGeneric(fl, es[1..], ints, env); }
  }

  lemma {:induction false} CompiledPartsGeneric<F>(fl: Floats<F>, e: Expr<F>, es: seq<Expr<F>>, ints: set<nat>,
          env: seq<Value<F>>)
    requires Holds(env, ints) && forall i :: 0 <= i < |es| ==> es[i] < e
    ensures CompiledParts(fl, e, es, ints, env) == EvalAll(fl, es, env)
    decreases e, 1, |es|
  {
    if es != [] { CompiledIsGeneric(fl, es[0], ints, env); CompiledPartsGeneric(fl, e, es[1..], ints, env); }
  }

  lemma {:induction false} NumIsGeneric<F>(fl: Floats<F>, e: Expr<F>, ints: set<nat>, env: seq<Value<F>>)
    requires Holds(env, ints)
    ensures Box(NumEval(fl, e, ints, env)) == Eval(fl, e, env)
    decreases e, if ArithNode(e) then 1 else 3
  {
    hide ApplyBin, NumBin, Wrap, Truthy, Compiled;
    if IsInt(e, ints) {
      NativeIntIsGeneric(fl, e, ints, env);
    } else if e.Bin? && ArithOp(e.op) {
      NumIsGeneric(fl, e.l, ints, env);
      NumIsGeneric(fl, e.r, ints, env);
      var a, b := NumEval(fl, e.l, ints, env), NumEval(fl, e.r, ints, env);
      if !a.NBoxed? && !b.NBoxed? { NumBinIsGeneric(fl, e.op, a, b); }
    } else if e.Un? && e.u == Neg {
      NumIsGeneric(fl, e.x, ints, env);
    } else {
      CompiledIsGeneric(fl, e, ints, env);
    }
  }
}
