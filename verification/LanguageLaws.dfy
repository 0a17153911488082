// What a proc body means, in laws a reader of the language can check without the machine: what is
// written is read back, nothing else changes, and blocks, loops and calls compose.
module LanguageLaws {
  import opened ProcSyntax
  import opened ValueMachine

  // The slots a statement assigns.
  function Targets(s: Stmt): set<Slot> {
    match s
    case Seq(s1, s2) => Targets(s1) + Targets(s2)
    case LetInt(x, _) => {x}
    case SetInt(x, _) => {x}
    case Let(x, _) => {x}
    case Set(x, _) => {x}
    case IndexSet(x, _, _) => {x}
    case FieldSet(x, _, _) => {x}
    case FieldAppend(x, _, _) => {x}
    case NestedSet(x, _, w, _, _) => {x, w}
    case If(_, s1, s2) => Targets(s1) + Targets(s2)
    case Loop(_, body) => Targets(body)
    case _ => {}
  }

  predicate Goes(out: POut) {
    out.PNorm? || out.PBrk? || out.PCont?
  }

  // A statement, however long it runs and whatever it calls, changes no slot but those it assigns: no
  // write is seen through another binding.
  lemma {:induction false} WritesOnlyTargets(prog: seq<Proc>, fuel: nat, pr: Proc, s: Stmt, env: Env)
    requires Goes(Exec(prog, fuel, pr, s, env))
    ensures var env' := Exec(prog, fuel, pr, s, env).env;
      |env'| == |env| && forall y :: 0 <= y < |env| && y !in Targets(s) ==> env'[y] == env[y]
    decreases fuel, s
  {
    hide ExecSimple;
    match s
    case Seq(s1, s2) =>
      WritesOnlyTargets(prog, fuel, pr, s1, env);
      var out := Exec(prog, fuel, pr, s1, env);
      if out.PNorm? { WritesOnlyTargets(prog, fuel, pr, s2, out.env); }
    case If(c, s1, s2) =>
      WritesOnlyTargets(prog, fuel, pr, if EvalCond(env, c).value then s1 else s2, env);
    case Loop(c, body) =>
      if EvalCond(env, c).value {
        WritesOnlyTargets(prog, fuel - 1, pr, body, env);
        var out := Exec(prog, fuel - 1, pr, body, env);
        if !out.PBrk? { WritesOnlyTargets(prog, fuel - 1, pr, s, out.env); }
      }
    case _ => SimpleWrites(prog, fuel, pr, s, env);
  }

  lemma SimpleWrites(prog: seq<Proc>, fuel: nat, pr: Proc, s: Stmt, env: Env)
    requires Goes(ExecSimple(prog, fuel, pr, s, env))
    ensures !s.Seq? && !s.If? && !s.Loop? ==>
      var env' := ExecSimple(prog, fuel, pr, s, env).env;
      |env'| == |env| && forall y :: 0 <= y < |env| && y !in Targets(s) ==> env'[y] == env[y]
  {
    hide EvalRhs, EvalInt, EvalArg;
  }

  // A statement without a block, step by step.
  lemma RunsSimply(prog: seq<Proc>, fuel: nat, pr: Proc, s: Stmt, env: Env)
    requires !s.Seq? && !s.If? && !s.Loop?
    ensures Exec(prog, fuel, pr, s, env) == ExecSimple(prog, fuel, pr, s, env)
  {
  }

  lemma Binds(prog: seq<Proc>, fuel: nat, pr: Proc, x: Slot, r: Rhs, env: Env)
    ensures Exec(prog, fuel, pr, Let(x, r), env) == BindOut(env, pr.ints, x, EvalRhs(prog, fuel, pr.ints, r, env))
    ensures Exec(prog, fuel, pr, Set(x, r), env) == if r.Append? && r.x == x then ExecAppend(env, pr.ints, x, r.e)
      else BindOut(env, pr.ints, x, EvalRhs(prog, fuel, pr.ints, r, env))
  {
    hide EvalRhs, ExecAppend, BindOut;
    RunsSimply(prog, fuel, pr, Let(x, r), env);
    RunsSimply(prog, fuel, pr, Set(x, r), env);
  }

  // ---- what is written is read back ----

  // The slot holds this list, as any int expression sees it.
  ghost predicate Reads(env: Env, x: Slot, xs: seq<int>) {
    && EvalInt(env, Len(x)) == Ok(|xs|)
    && forall k: int :: EvalInt(env, Index(x, Lit(k))) == if 0 <= k < |xs| then Ok(xs[k]) else Err(OutOfBounds)
  }

  ghost predicate ReadsField(env: Env, x: Slot, f: nat, xs: seq<int>) {
    && EvalInt(env, FieldLen(x, f)) == Ok(|xs|)
    && forall k: int :: EvalInt(env, FieldIndex(x, f, Lit(k))) == if 0 <= k < |xs| then Ok(xs[k]) else Err(OutOfBounds)
  }

  lemma ListReads(env: Env, x: Slot)
    requires Get(env, x).VList?
    ensures Reads(env, x, Get(env, x).xs)
  {
  }

  lemma FieldReads(env: Env, x: Slot, f: nat)
    requires Get(env, x).VStruct? && f < |Get(env, x).fs| && Get(env, x).fs[f].VList?
    ensures ReadsField(env, x, f, Get(env, x).fs[f].xs)
  {
    var v := Get(env, x).fs[f];
    forall k: int
      ensures EvalInt(env, FieldIndex(x, f, Lit(k))) == if 0 <= k < |v.xs| then Ok(v.xs[k]) else Err(OutOfBounds)
    {
      assert EvalInt(env, Lit(k)) == Ok(k);
    }
  }

  // A slot that can hold a list or a struct.
  predicate Holder(pr: Proc, env: Env, x: Slot) {
    x < |env| && !IsInt(pr.ints, x)
  }

  // A list literal is its elements, each evaluated as written, in order.
  lemma LiteralReads(prog: seq<Proc>, fuel: nat, pr: Proc, x: Slot, es: seq<IntExpr>, env: Env)
    requires Holder(pr, env, x) && Exec(prog, fuel, pr, Let(x, ListLit(es)), env).PNorm?
    ensures exists ns ::
      && |ns| == |es| && Reads(Exec(prog, fuel, pr, Let(x, ListLit(es)), env).env, x, ns)
      && forall k :: 0 <= k < |es| ==> EvalInt(env, es[k]) == Ok(ns[k])
  {
    var env' := Exec(prog, fuel, pr, Let(x, ListLit(es)), env).env;
    Binds(prog, fuel, pr, x, ListLit(es), env);
    EachEvaluated(env, es);
    ListReads(env', x);
  }

  lemma {:induction false} EachEvaluated(env: Env, es: seq<IntExpr>)
    requires EvalInts(env, es).Ok?
    ensures |EvalInts(env, es).value| == |es|
    ensures forall k :: 0 <= k < |es| ==> EvalInt(env, es[k]) == Ok(EvalInts(env, es).value[k])
  {
    hide EvalInt;
    if es != [] { EachEvaluated(env, es[1..]); }
  }

  // An append is the list with the value after it, whichever slot it goes to.
  lemma AppendReads(prog: seq<Proc>, fuel: nat, pr: Proc, x: Slot, y: Slot, e: IntExpr, env: Env)
    requires Holder(pr, env, x) && Get(env, y).VList? && EvalInt(env, e).Ok?
    ensures var out := Exec(prog, fuel, pr, Set(x, Append(y, e)), env);
      out.PNorm? && Reads(out.env, x, Get(env, y).xs + [EvalInt(env, e).value])
    ensures Exec(prog, fuel, pr, Let(x, Append(y, e)), env) == Exec(prog, fuel, pr, Set(x, Append(y, e)), env)
  {
    hide EvalInt, Reads, Exec;
    Binds(prog, fuel, pr, x, Append(y, e), env);
    ListReads(Exec(prog, fuel, pr, Set(x, Append(y, e)), env).env, x);
  }

  // An index write is read back, and every other index reads as before; outside the list it fails.
  lemma IndexSetReads(prog: seq<Proc>, fuel: nat, pr: Proc, x: Slot, i: IntExpr, v: IntExpr, env: Env)
    requires Holder(pr, env, x) && Get(env, x).VList? && EvalInt(env, i).Ok? && EvalInt(env, v).Ok?
    ensures var out, k, xs := Exec(prog, fuel, pr, IndexSet(x, i, v), env), EvalInt(env, i).value, Get(env, x).xs;
      if 0 <= k < |xs| then out.PNorm? && Reads(out.env, x, xs[..k] + [EvalInt(env, v).value] + xs[k + 1..])
      else out == PFail(OutOfBounds)
  {
    hide EvalInt, Reads;
    RunsSimply(prog, fuel, pr, IndexSet(x, i, v), env);
    var out, k, xs := Exec(prog, fuel, pr, IndexSet(x, i, v), env), EvalInt(env, i).value, Get(env, x).xs;
    if 0 <= k < |xs| {
      ListReads(out.env, x);
      assert xs[k := EvalInt(env, v).value] == xs[..k] + [EvalInt(env, v).value] + xs[k + 1..];
    }
  }

  // A field write stores the value in that field and in no other.
  lemma FieldSetReads(prog: seq<Proc>, fuel: nat, pr: Proc, x: Slot, f: nat, a: Arg, env: Env)
    requires Exec(prog, fuel, pr, FieldSet(x, f, a), env).PNorm?
    ensures var env' := Exec(prog, fuel, pr, FieldSet(x, f, a), env).env;
      && EvalArg(env, pr.ints, a) == Field(Get(env', x), f)
      && forall g :: g != f ==> Field(Get(env', x), g) == Field(Get(env, x), g)
  {
    hide EvalArg;
    RunsSimply(prog, fuel, pr, FieldSet(x, f, a), env);
  }

  // A struct literal holds its arguments, field by field.
  lemma StructLitReads(prog: seq<Proc>, fuel: nat, pr: Proc, x: Slot, args: seq<Arg>, env: Env)
    requires Holder(pr, env, x) && Exec(prog, fuel, pr, Let(x, StructLit(args)), env).PNorm?
    ensures var env' := Exec(prog, fuel, pr, Let(x, StructLit(args)), env).env;
      forall f :: 0 <= f < |args| ==> Field(Get(env', x), f) == EvalArg(env, pr.ints, args[f])
  {
    hide EvalArg, Exec;
    Binds(prog, fuel, pr, x, StructLit(args), env);
    EachArg(env, pr.ints, args);
  }

  lemma {:induction false} EachArg(env: Env, ints: seq<bool>, args: seq<Arg>)
    requires EvalArgs(env, ints, args).Ok?
    ensures |EvalArgs(env, ints, args).value| == |args|
    ensures forall k :: 0 <= k < |args| ==> EvalArg(env, ints, args[k]) == Ok(EvalArgs(env, ints, args).value[k])
  {
    hide EvalArg;
    if args != [] { EachArg(env, ints, args[1..]); }
  }

  // A field append, and a write to an element of a field.
  lemma FieldAppendReads(prog: seq<Proc>, fuel: nat, pr: Proc, x: Slot, f: nat, e: IntExpr, env: Env, xs: seq<int>)
    requires x < |env| && EvalInt(env, e).Ok? && Field(Get(env, x), f) == Ok(VList(xs)) && f < |Get(env, x).fs|
    ensures var out := Exec(prog, fuel, pr, FieldAppend(x, f, e), env);
      && out.PNorm? && ReadsField(out.env, x, f, xs + [EvalInt(env, e).value])
      && forall g :: g != f ==> Field(Get(out.env, x), g) == Field(Get(env, x), g)
  {
    hide EvalInt, ReadsField;
    RunsSimply(prog, fuel, pr, FieldAppend(x, f, e), env);
    FieldReads(Exec(prog, fuel, pr, FieldAppend(x, f, e), env).env, x, f);
  }

  lemma NestedSetReads(prog: seq<Proc>, fuel: nat, pr: Proc, x: Slot, f: nat, w: Slot, k: int, v: int, env: Env,
          xs: seq<int>)
    requires x < |env| && Holder(pr, env, w) && w != x
    requires Field(Get(env, x), f) == Ok(VList(xs)) && f < |Get(env, x).fs| && 0 <= k < |xs|
    ensures var out := Exec(prog, fuel, pr, NestedSet(x, f, w, Lit(k), Lit(v)), env);
      && out.PNorm? && ReadsField(out.env, x, f, xs[..k] + [v] + xs[k + 1..])
      && forall g :: g != f ==> Field(Get(out.env, x), g) == Field(Get(env, x), g)
  {
    hide ReadsField;
    RunsSimply(prog, fuel, pr, NestedSet(x, f, w, Lit(k), Lit(v)), env);
    FieldReads(Exec(prog, fuel, pr, NestedSet(x, f, w, Lit(k), Lit(v)), env).env, x, f);
    assert xs[k := v] == xs[..k] + [v] + xs[k + 1..];
  }

  // An int is held as it was computed, and an operator applies to its operands left and right.
  lemma IntReads(prog: seq<Proc>, fuel: nat, pr: Proc, x: Slot, y: Slot, z: Slot, op: ArithOp, env: Env, a: int, b: int)
    requires x < |env| && Get(env, y) == VInt(a) && Get(env, z) == VInt(b)
    ensures var out := Exec(prog, fuel, pr, SetInt(x, Bin(op, Var(y), Var(z))), env);
      && out.PNorm?
      && EvalInt(out.env, Var(x)) == Ok(Arith(op, a, b)) && EvalInt(out.env, Neg(Var(x))) == Ok(-Arith(op, a, b))
    ensures Exec(prog, fuel, pr, LetInt(x, Bin(op, Var(y), Var(z))), env)
      == Exec(prog, fuel, pr, SetInt(x, Bin(op, Var(y), Var(z))), env)
  {
    RunsSimply(prog, fuel, pr, SetInt(x, Bin(op, Var(y), Var(z))), env);
    RunsSimply(prog, fuel, pr, LetInt(x, Bin(op, Var(y), Var(z))), env);
    hide Arith;
    assert EvalInt(env, Var(y)) == Ok(a) && EvalInt(env, Var(z)) == Ok(b);
    var env' := env[x := VInt(Arith(op, a, b))];
    assert EvalInt(env', Var(x)) == Ok(Arith(op, a, b));
  }

  // An int field is read as the int it holds, and a field that holds none as 0.
  lemma IntFieldReads(env: Env, x: Slot, f: nat, v: Val)
    requires Field(Get(env, x), f) == Ok(v)
    ensures EvalInt(env, FieldInt(x, f)) == Ok(if v.VInt? then v.n else 0)
  {
    hide Field;
  }

  // Binding a local copies its value, and returning one ends the body with it, whatever follows.
  lemma LocalReads(prog: seq<Proc>, fuel: nat, pr: Proc, x: Slot, y: Slot, rest: Stmt, env: Env)
    requires Holder(pr, env, x) && Holder(pr, env, y)
    ensures Exec(prog, fuel, pr, Let(x, Plain(ArgLocal(y))), env) == PNorm(env[x := env[y]])
    ensures Exec(prog, fuel, pr, Set(x, Plain(ArgLocal(y))), env) == PNorm(env[x := env[y]])
    ensures Exec(prog, fuel, pr, Seq(Return(ArgLocal(y)), rest), env) == PRet(env[y])
  {
    Binds(prog, fuel, pr, x, Plain(ArgLocal(y)), env);
    RunsSimply(prog, fuel, pr, Return(ArgLocal(y)), env);
    RunsThen(prog, fuel, pr, Return(ArgLocal(y)), rest, env);
    hide Exec;
  }

  // ---- blocks and loops ----

  // Sequencing is associative and doing nothing is its unit.
  lemma SequencesCompose(prog: seq<Proc>, fuel: nat, pr: Proc, s1: Stmt, s2: Stmt, s3: Stmt, env: Env)
    ensures Exec(prog, fuel, pr, Seq(Seq(s1, s2), s3), env) == Exec(prog, fuel, pr, Seq(s1, Seq(s2, s3)), env)
    ensures Exec(prog, fuel, pr, Seq(Skip, s1), env) == Exec(prog, fuel, pr, s1, env)
    ensures Exec(prog, fuel, pr, Seq(s1, Skip), env) == Exec(prog, fuel, pr, s1, env)
    ensures Exec(prog, fuel, pr, Seq(Break, s1), env) == PBrk(env)
    ensures Exec(prog, fuel, pr, Seq(Continue, s1), env) == PCont(env)
  {
    hide Exec;
    RunsThen(prog, fuel, pr, Seq(s1, s2), s3, env);
    RunsThen(prog, fuel, pr, s1, s2, env);
    RunsThen(prog, fuel, pr, s1, Seq(s2, s3), env);
    RunsThen(prog, fuel, pr, s1, Skip, env);
    var out := Exec(prog, fuel, pr, s1, env);
    if out.PNorm? {
      RunsThen(prog, fuel, pr, s2, s3, out.env);
      Stays(prog, fuel, pr, out.env);
    }
    Stays(prog, fuel, pr, env);
    RunsThen(prog, fuel, pr, Skip, s1, env);
    RunsThen(prog, fuel, pr, Break, s1, env);
    RunsThen(prog, fuel, pr, Continue, s1, env);
  }

  lemma RunsThen(prog: seq<Proc>, fuel: nat, pr: Proc, s1: Stmt, s2: Stmt, env: Env)
    ensures var out := Exec(prog, fuel, pr, s1, env);
      Exec(prog, fuel, pr, Seq(s1, s2), env) == if out.PNorm? then Exec(prog, fuel, pr, s2, out.env) else out
  {
    hide ExecSimple;
  }

  lemma Stays(prog: seq<Proc>, fuel: nat, pr: Proc, env: Env)
    ensures Exec(prog, fuel, pr, Skip, env) == PNorm(env)
    ensures Exec(prog, fuel, pr, Break, env) == PBrk(env) && Exec(prog, fuel, pr, Continue, env) == PCont(env)
  {
    RunsSimply(prog, fuel, pr, Skip, env);
    RunsSimply(prog, fuel, pr, Break, env);
    RunsSimply(prog, fuel, pr, Continue, env);
  }

  // The branch whose condition holds is taken; with both alike the condition only has to be evaluable.
  lemma Branches(prog: seq<Proc>, fuel: nat, pr: Proc, x: Slot, n: int, op: CmpOp, s1: Stmt, s2: Stmt, env: Env)
    ensures var c := Cmp(op, Var(x), Lit(n));
      Exec(prog, fuel, pr, If(c, s1, s2), env)
      == if Compare(op, AsInt(Get(env, x)), n) then Exec(prog, fuel, pr, s1, env) else Exec(prog, fuel, pr, s2, env)
  {
  }

  // A loop runs its body and then itself while its condition holds, at the cost of one unit of fuel; a
  // continue starts it over and a break ends it where it stands.
  lemma LoopUnfolds(prog: seq<Proc>, fuel: nat, pr: Proc, c: Cond, body: Stmt, env: Env, holds: bool)
    requires EvalCond(env, c) == Ok(holds)
    ensures !holds ==> Exec(prog, fuel, pr, Loop(c, body), env) == PNorm(env)
    ensures holds ==> match Exec(prog, fuel, pr, body, env)
      case PNorm(next) => Exec(prog, fuel + 1, pr, Loop(c, body), env) == Exec(prog, fuel, pr, Loop(c, body), next)
      case PCont(next) => Exec(prog, fuel + 1, pr, Loop(c, body), env) == Exec(prog, fuel, pr, Loop(c, body), next)
      case PBrk(next) => Exec(prog, fuel + 1, pr, Loop(c, body), env) == PNorm(next)
      case out => Exec(prog, fuel + 1, pr, Loop(c, body), env) == out
  {
    hide EvalCond;
  }

  // ---- calls ----

  // A call returns what its body returns, over parameters bound to the arguments in order and every
  // other slot empty; a body that falls off its end returns nothing.
  lemma CallReturns(prog: seq<Proc>, fuel: nat, p: nat, vs: seq<Val>, env: Env)
    requires p < |prog| && |vs| == prog[p].nparams && |env| == prog[p].nslots
    requires forall x :: 0 <= x < |env| ==>
      env[x] == if x >= |vs| then VNil else if IsInt(prog[p].ints, x) then VInt(AsInt(vs[x])) else vs[x]
    ensures match Exec(prog, fuel, prog[p], prog[p].body, env)
      case PRet(v) => RunProc(prog, fuel + 1, p, vs) == Returned(v)
      case PFail(f) => RunProc(prog, fuel + 1, p, vs) == Failed(f)
      case PTimeout => RunProc(prog, fuel + 1, p, vs) == OutOfFuel
      case _ => RunProc(prog, fuel + 1, p, vs) == Returned(VNil)
  {
    hide Exec;
    assert env == EntryEnv(prog[p], vs);
  }

  // ---- fuel ----

  // Fuel only cuts runs short: a run that ends, ends alike with more of it.
  lemma {:induction false} MoreFuel(prog: seq<Proc>, fuel: nat, pr: Proc, s: Stmt, env: Env)
    requires Exec(prog, fuel, pr, s, env) != PTimeout
    ensures Exec(prog, fuel + 1, pr, s, env) == Exec(prog, fuel, pr, s, env)
    decreases fuel, 4, s
  {
    hide EvalCond, ExecSimple;
    match s
    case Seq(s1, s2) =>
      MoreFuel(prog, fuel, pr, s1, env);
      var out := Exec(prog, fuel, pr, s1, env);
      if out.PNorm? { MoreFuel(prog, fuel, pr, s2, out.env); }
    case If(c, s1, s2) =>
      if EvalCond(env, c).Ok? { MoreFuel(prog, fuel, pr, if EvalCond(env, c).value then s1 else s2, env); }
    case Loop(c, body) =>
      if EvalCond(env, c).Ok? && EvalCond(env, c).value {
        MoreFuel(prog, fuel - 1, pr, body, env);
        var out := Exec(prog, fuel - 1, pr, body, env);
        if out.PNorm? || out.PCont? { MoreFuel(prog, fuel - 1, pr, s, out.env); }
      }
    case _ => MoreFuelSimple(prog, fuel, pr, s, env);
  }

  lemma MoreFuelSimple(prog: seq<Proc>, fuel: nat, pr: Proc, s: Stmt, env: Env)
    requires ExecSimple(prog, fuel, pr, s, env) != PTimeout
    ensures ExecSimple(prog, fuel + 1, pr, s, env) == ExecSimple(prog, fuel, pr, s, env)
    decreases fuel, 3, Skip
  {
    hide EvalRhs, ExecInt, ExecAppend, ExecIndexSet, ExecFieldSet, ExecFieldAppend, ExecNestedSet, ExecReturn;
    match s
    case Let(_, r) => MoreFuelRhs(prog, fuel, pr.ints, r, env);
    case Set(x, r) => if !(r.Append? && r.x == x) { MoreFuelRhs(prog, fuel, pr.ints, r, env); }
    case _ =>
  }

  lemma MoreFuelRhs(prog: seq<Proc>, fuel: nat, ints: seq<bool>, r: Rhs, env: Env)
    requires EvalRhs(prog, fuel, ints, r, env) != OutOfFuel
    ensures EvalRhs(prog, fuel + 1, ints, r, env) == EvalRhs(prog, fuel, ints, r, env)
    decreases fuel, 2, Skip
  {
    hide EvalInt, EvalInts, EvalArg, EvalArgs, RunProc;
    if r.Call? && EvalArgs(env, ints, r.args).Ok? { MoreFuelProc(prog, fuel, r.p, EvalArgs(env, ints, r.args).value); }
  }

  lemma MoreFuelProc(prog: seq<Proc>, fuel: nat, p: nat, vs: seq<Val>)
    requires RunProc(prog, fuel, p, vs) != OutOfFuel
    ensures RunProc(prog, fuel + 1, p, vs) == RunProc(prog, fuel, p, vs)
    decreases fuel, 1, Skip
  {
    hide Exec, EntryEnv;
    if p < |prog| && |vs| == prog[p].nparams {
      MoreFuel(prog, fuel - 1, prog[p], prog[p].body, EntryEnv(prog[p], vs));
    }
  }
}
