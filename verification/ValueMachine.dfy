/** The language's meaning: every binding holds a value of its own (copy on bind).  Nothing is
  * shared, moved or written in place, so no binding can see a write made through another.
  */
module ValueMachine {
  import opened ProcSyntax

  datatype Val =
    | VNil
    | VInt(n: int)
    | VList(xs: seq<int>)
    | VStruct(fs: seq<Val>)

  type Env = seq<Val>

  datatype POut =
    | PNorm(env: Env)
    | PRet(v: Val)
    | PBrk(env: Env)
    | PCont(env: Env)
    | PFail(fault: Fault)
    | PTimeout

  function AsInt(v: Val): int {
    if v.VInt? then v.n else 0
  }

  function Get(env: Env, x: Slot): Val {
    if x < |env| then env[x] else VNil
  }

  function Bind(env: Env, ints: seq<bool>, x: Slot, v: Val): (env': Env)
    ensures |env'| == |env|
  {
    if x < |env| then env[x := if IsInt(ints, x) then VInt(AsInt(v)) else v] else env
  }

  function Field(v: Val, f: nat): Result<Val> {
    if v.VStruct? then Ok(if f < |v.fs| then v.fs[f] else VNil) else Err(NotStruct)
  }

  function At(v: Val, k: int): Result<int> {
    if !v.VList? then Err(NotIndexable)
    else if 0 <= k < |v.xs| then Ok(v.xs[k])
    else Err(OutOfBounds)
  }

  function Length(v: Val): Result<int> {
    if v.VList? then Ok(|v.xs|) else Err(NoLength)
  }

  function EvalInt(env: Env, e: IntExpr): Result<int> {
    match e
    case Lit(n) => Ok(n)
    case Var(x) => Ok(AsInt(Get(env, x)))
    case Neg(e1) =>
      (match EvalInt(env, e1)
       case Err(f) => Err(f)
       case Ok(n) => Ok(-n))
    case Bin(op, l, r) =>
      (match EvalInt(env, l)
       case Err(f) => Err(f)
       case Ok(a) =>
         match EvalInt(env, r)
         case Err(f) => Err(f)
         case Ok(b) => Ok(Arith(op, a, b)))
    case Index(x, i) =>
      (match EvalInt(env, i)
       case Err(f) => Err(f)
       case Ok(k) => At(Get(env, x), k))
    case Len(x) => Length(Get(env, x))
    case FieldInt(x, f) =>
      (match Field(Get(env, x), f)
       case Err(fault) => Err(fault)
       case Ok(v) => Ok(AsInt(v)))
    case FieldIndex(x, f, i) =>
      (match Field(Get(env, x), f)
       case Err(fault) => Err(fault)
       case Ok(v) =>
         match EvalInt(env, i)
         case Err(fault) => Err(fault)
         case Ok(k) => At(v, k))
    case FieldLen(x, f) =>
      (match Field(Get(env, x), f)
       case Err(fault) => Err(fault)
       case Ok(v) => Length(v))
  }

  function EvalInts(env: Env, es: seq<IntExpr>): Result<seq<int>> {
    if es == [] then Ok([])
    else
      match EvalInt(env, es[0])
      case Err(f) => Err(f)
      case Ok(n) =>
        match EvalInts(env, es[1..])
        case Err(f) => Err(f)
        case Ok(ns) => Ok([n] + ns)
  }

  function EvalCond(env: Env, c: Cond): Result<bool> {
    match EvalInt(env, c.l)
    case Err(f) => Err(f)
    case Ok(a) =>
      match EvalInt(env, c.r)
      case Err(f) => Err(f)
      case Ok(b) => Ok(Compare(c.op, a, b))
  }

  function EvalArg(env: Env, ints: seq<bool>, a: Arg): Result<Val> {
    match a
    case ArgInt(e) =>
      (match EvalInt(env, e)
       case Err(f) => Err(f)
       case Ok(n) => Ok(VInt(n)))
    case ArgLocal(x) => Ok(if IsInt(ints, x) then VInt(AsInt(Get(env, x))) else Get(env, x))
    case ArgField(x, f) => Field(Get(env, x), f)
  }

  function EvalArgs(env: Env, ints: seq<bool>, args: seq<Arg>): Result<seq<Val>> {
    if args == [] then Ok([])
    else
      match EvalArg(env, ints, args[0])
      case Err(f) => Err(f)
      case Ok(v) =>
        match EvalArgs(env, ints, args[1..])
        case Err(f) => Err(f)
        case Ok(vs) => Ok([v] + vs)
  }

  predicate Flat(vs: seq<Val>) {
    forall v <- vs :: !v.VStruct?
  }

  /** The builtin on a value that is no list starts from the empty one (`appendCopy`). */
  function AppendTo(v: Val, n: int): Val {
    VList((if v.VList? then v.xs else []) + [n])
  }

  function WriteIndex(v: Val, k: int, n: int): Result<Val> {
    if !v.VList? then Err(NotIndexable)
    else if 0 <= k < |v.xs| then Ok(VList(v.xs[k := n]))
    else Err(OutOfBounds)
  }

  function EntryEnv(pr: Proc, vs: seq<Val>): (env: Env)
    ensures |env| == pr.nslots
  {
    seq(pr.nslots, x requires 0 <= x =>
      if x < pr.nparams && x < |vs| then
        if IsInt(pr.ints, x) then VInt(AsInt(vs[x])) else vs[x]
      else VNil)
  }

  datatype CallOut = Returned(v: Val) | Failed(fault: Fault) | OutOfFuel

  /** A body that does not return yields nothing. */
  function CallResult(out: POut): CallOut {
    match out
    case PRet(v) => Returned(v)
    case PFail(f) => Failed(f)
    case PTimeout => OutOfFuel
    case _ => Returned(VNil)
  }

  function RunProc(prog: seq<Proc>, fuel: nat, p: nat, vs: seq<Val>): CallOut
    decreases fuel, 1, Skip
  {
    if p >= |prog| then Failed(UnknownProc)
    else if |vs| != prog[p].nparams then Failed(Arity)
    else if fuel == 0 then OutOfFuel
    else CallResult(Exec(prog, fuel - 1, prog[p], prog[p].body, EntryEnv(prog[p], vs)))
  }

  function EvalRhs(prog: seq<Proc>, fuel: nat, ints: seq<bool>, r: Rhs, env: Env): CallOut
    decreases fuel, 2, Skip
  {
    match r
    case Plain(a) =>
      (match EvalArg(env, ints, a)
       case Err(f) => Failed(f)
       case Ok(v) => Returned(v))
    case ListLit(es) =>
      (match EvalInts(env, es)
       case Err(f) => Failed(f)
       case Ok(ns) => Returned(VList(ns)))
    case Append(x, e) =>
      (match EvalInt(env, e)
       case Err(f) => Failed(f)
       case Ok(n) => Returned(AppendTo(Get(env, x), n)))
    case StructLit(args) =>
      (match EvalArgs(env, ints, args)
       case Err(f) => Failed(f)
       case Ok(vs) => if Flat(vs) then Returned(VStruct(vs)) else Failed(NotFlat))
    case Call(p, args) =>
      (match EvalArgs(env, ints, args)
       case Err(f) => Failed(f)
       case Ok(vs) => RunProc(prog, fuel, p, vs))
  }

  function ExecInt(env: Env, x: Slot, e: IntExpr): POut {
    match EvalInt(env, e)
    case Err(f) => PFail(f)
    case Ok(n) => PNorm(if x < |env| then env[x := VInt(n)] else env)
  }

  function BindOut(env: Env, ints: seq<bool>, x: Slot, c: CallOut): POut {
    match c
    case Failed(f) => PFail(f)
    case OutOfFuel => PTimeout
    case Returned(v) => PNorm(Bind(env, ints, x, v))
  }

  function ExecAppend(env: Env, ints: seq<bool>, x: Slot, e: IntExpr): POut {
    match EvalInt(env, e)
    case Err(f) => PFail(f)
    case Ok(n) => PNorm(Bind(env, ints, x, AppendTo(Get(env, x), n)))
  }

  function ExecIndexSet(env: Env, x: Slot, i: IntExpr, v: IntExpr): POut {
    if !Get(env, x).VList? then PFail(NotIndexable)
    else
      match EvalInt(env, i)
      case Err(f) => PFail(f)
      case Ok(k) =>
        if !(0 <= k < |Get(env, x).xs|) then PFail(OutOfBounds)
        else
          match EvalInt(env, v)
          case Err(f) => PFail(f)
          case Ok(n) => PNorm(if x < |env| then env[x := VList(Get(env, x).xs[k := n])] else env)
  }

  function WriteField(env: Env, x: Slot, f: nat, v: Val): POut {
    if v.VStruct? then PFail(NotFlat)
    else if x < |env| && env[x].VStruct? && f < |env[x].fs| then
      PNorm(env[x := VStruct(env[x].fs[f := v])])
    else PFail(NoField)
  }

  function ExecFieldSet(env: Env, ints: seq<bool>, x: Slot, f: nat, a: Arg): POut {
    if !Get(env, x).VStruct? then PFail(NotStruct)
    else if f >= |Get(env, x).fs| then PFail(NoField)
    else
      match EvalArg(env, ints, a)
      case Err(fault) => PFail(fault)
      case Ok(v) => WriteField(env, x, f, v)
  }

  function ExecFieldAppend(env: Env, x: Slot, f: nat, e: IntExpr): POut {
    if !Get(env, x).VStruct? then PFail(NotStruct)
    else if f >= |Get(env, x).fs| then PFail(NoField)
    else
      match EvalInt(env, e)
      case Err(fault) => PFail(fault)
      case Ok(n) => WriteField(env, x, f, AppendTo(Get(env, x).fs[f], n))
  }

  function ExecNestedSet(env: Env, ints: seq<bool>, x: Slot, f: nat, w: Slot, i: IntExpr, v: IntExpr): POut {
    match Field(Get(env, x), f)
    case Err(fault) => PFail(fault)
    case Ok(fv) =>
      var env1 := if w < |env| then env[w := fv] else env;
      match ExecIndexSet(env1, w, i, v)
      case PNorm(env2) => ExecFieldSet(env2, ints, x, f, ArgLocal(w))
      case other => other
  }

  function ExecReturn(env: Env, ints: seq<bool>, a: Arg): POut {
    match EvalArg(env, ints, a)
    case Err(f) => PFail(f)
    case Ok(v) => PRet(v)
  }

  /** Runs a statement that has no block. */
  function ExecSimple(prog: seq<Proc>, fuel: nat, pr: Proc, s: Stmt, env: Env): POut
    decreases fuel, 3, Skip
  {
    match s
    case LetInt(x, e) => ExecInt(env, x, e)
    case SetInt(x, e) => ExecInt(env, x, e)
    case Let(x, r) => BindOut(env, pr.ints, x, EvalRhs(prog, fuel, pr.ints, r, env))
    case Set(x, r) =>
      if r.Append? && r.x == x then ExecAppend(env, pr.ints, x, r.e)
      else BindOut(env, pr.ints, x, EvalRhs(prog, fuel, pr.ints, r, env))
    case IndexSet(x, i, v) => ExecIndexSet(env, x, i, v)
    case FieldSet(x, f, a) => ExecFieldSet(env, pr.ints, x, f, a)
    case FieldAppend(x, f, e) => ExecFieldAppend(env, x, f, e)
    case NestedSet(x, f, w, i, v) => ExecNestedSet(env, pr.ints, x, f, w, i, v)
    case Break => PBrk(env)
    case Continue => PCont(env)
    case Return(a) => ExecReturn(env, pr.ints, a)
    case _ => PNorm(env)
  }

  /** Runs a statement; `fuel` bounds the iterations and nested calls of one run. */
  function Exec(prog: seq<Proc>, fuel: nat, pr: Proc, s: Stmt, env: Env): POut
    decreases fuel, 4, s
  {
    match s
    case Seq(s1, s2) =>
      var out := Exec(prog, fuel, pr, s1, env);
      if out.PNorm? then Exec(prog, fuel, pr, s2, out.env) else out
    case If(c, s1, s2) =>
      (match EvalCond(env, c)
       case Err(f) => PFail(f)
       case Ok(b) => Exec(prog, fuel, pr, if b then s1 else s2, env))
    case Loop(c, body) =>
      (match EvalCond(env, c)
       case Err(f) => PFail(f)
       case Ok(b) =>
         if !b then PNorm(env)
         else if fuel == 0 then PTimeout
         else
           var out := Exec(prog, fuel - 1, pr, body, env);
           if out.PNorm? || out.PCont? then Exec(prog, fuel - 1, pr, s, out.env)
           else if out.PBrk? then PNorm(out.env)
           else out)
    case _ => ExecSimple(prog, fuel, pr, s, env)
  }
}
