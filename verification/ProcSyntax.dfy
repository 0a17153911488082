/** The part of a proc body the ownership engine is modelled on, after names have been
  * resolved to slots (`procCompiler.declare` / `lookup` give every declaration a slot of its
  * own).  Composite operands are locals, fields of locals or calls; int operands are trees
  * of any depth, since an int expression only ever inspects composite values.
  */
module ProcSyntax {
  import opened Division

  type Slot = nat

  datatype ArithOp = Add | Sub | Mul | Div | Mod

  datatype CmpOp = Lt | Le | Gt | Ge | Eq | Ne

  /** An expression compiled by `intExpr`: it reads composites without retaining them. */
  datatype IntExpr =
    | Lit(n: int)
    | Var(x: Slot)
    | Neg(e: IntExpr)
    | Bin(op: ArithOp, l: IntExpr, r: IntExpr)
    | Index(x: Slot, i: IntExpr)
    | Len(x: Slot)
    | FieldInt(x: Slot, f: nat)
    | FieldIndex(x: Slot, f: nat, i: IntExpr)
    | FieldLen(x: Slot, f: nat)

  datatype Cond = Cmp(op: CmpOp, l: IntExpr, r: IntExpr)

  /** What may be passed, bound or stored: an int, a whole local, or a field of a local. */
  datatype Arg = ArgInt(e: IntExpr) | ArgLocal(x: Slot) | ArgField(x: Slot, f: nat)

  datatype Rhs =
    | Plain(a: Arg)
    | ListLit(es: seq<IntExpr>)
    | Append(x: Slot, e: IntExpr)
    | StructLit(args: seq<Arg>)
    | Call(p: nat, args: seq<Arg>)

  datatype Stmt =
    | Skip
    | Seq(s1: Stmt, s2: Stmt)
    | LetInt(x: Slot, e: IntExpr)
    | SetInt(x: Slot, e: IntExpr)
    | Let(x: Slot, r: Rhs)
    | Set(x: Slot, r: Rhs)
    | IndexSet(x: Slot, i: IntExpr, v: IntExpr)
    | FieldSet(x: Slot, f: nat, a: Arg)
    | FieldAppend(x: Slot, f: nat, e: IntExpr)
      // `x.f[i] = v`, which the parser turns into `w = x.f; w[i] = v; x.f = w`
    | NestedSet(x: Slot, f: nat, w: Slot, i: IntExpr, v: IntExpr)
    | If(c: Cond, s1: Stmt, s2: Stmt)
    | Loop(c: Cond, body: Stmt)
    | Break
    | Continue
    | Return(a: Arg)

  /** `ints[x]`: slot x is statically an int (`procCompiler.ints`), so it is held unboxed and
    * takes no part in ownership.  Parameters are slots 0 .. nparams. */
  datatype Proc = Proc(nparams: nat, nslots: nat, ints: seq<bool>, body: Stmt)

  predicate IsInt(ints: seq<bool>, x: Slot) {
    x < |ints| && ints[x]
  }

  /** Why a run failed; both machines must agree on it. */
  datatype Fault = NotIndexable | OutOfBounds | NoLength | NotStruct | NoField | NotFlat | UnknownProc | Arity

  datatype Result<+T> = Ok(value: T) | Err(fault: Fault)

  // ── operators, shared by both machines ──

  /** `intArith`: division and modulo by zero give 0. */
  function Arith(op: ArithOp, a: int, b: int): int {
    match op
    case Add => a + b
    case Sub => a - b
    case Mul => a * b
    case Div => Quotient(a, b)
    case Mod => Remainder(a, b)
  }

  predicate Compare(op: CmpOp, a: int, b: int) {
    match op
    case Lt => a < b
    case Le => a <= b
    case Gt => a > b
    case Ge => a >= b
    case Eq => a == b
    case Ne => a != b
  }

  /** `fresh` on an int expression: only whether a struct field filled with it is marked as
    * the struct's own, which for an int is without effect. */
  predicate FreshInt(e: IntExpr) {
    e.Lit? || e.Neg? || e.Bin?
  }

  // ── escape analysis (`procCompiler.escaped`) ──

  function ArgEscapes(ints: seq<bool>, a: Arg): set<Slot> {
    match a
    case ArgInt(_) => {}
    case ArgLocal(x) => if IsInt(ints, x) then {} else {x}
    case ArgField(x, _) => {x}
  }

  function ArgsEscape(ints: seq<bool>, args: seq<Arg>): set<Slot> {
    if args == [] then {} else ArgEscapes(ints, args[0]) + ArgsEscape(ints, args[1..])
  }

  function RhsEscapes(ints: seq<bool>, r: Rhs): set<Slot> {
    match r
    case Plain(a) => ArgEscapes(ints, a)
    case ListLit(_) => {}
    case Append(_, _) => {}
    case StructLit(args) => ArgsEscape(ints, args)
    case Call(_, args) => ArgsEscape(ints, args)
  }

  /** The slots whose value, or a field of it, may outlive the statement that reads it. */
  function Escapes(ints: seq<bool>, s: Stmt): set<Slot> {
    match s
    case Seq(s1, s2) => Escapes(ints, s1) + Escapes(ints, s2)
    case Let(_, r) => RhsEscapes(ints, r)
    case Set(_, r) => RhsEscapes(ints, r)
    case FieldSet(_, _, a) => ArgEscapes(ints, a)
    case NestedSet(x, _, w, _, _) => {x, w}
    case If(_, s1, s2) => Escapes(ints, s1) + Escapes(ints, s2)
    case Loop(_, body) => Escapes(ints, body)
    case Return(a) => ArgEscapes(ints, a)
    case _ => {}
  }

  /** `procCode.borrow`: parameter i is only inspected, or only written through a copy. */
  predicate Borrows(pr: Proc, i: nat) {
    i < pr.nparams && !IsInt(pr.ints, i) && i !in Escapes(pr.ints, pr.body)
  }
}
