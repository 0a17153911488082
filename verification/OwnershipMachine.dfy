/** The engine as it runs: composite values are shared heap cells, a slot carries an ownership
  * bit, a struct carries one per field, and a write copies its target first unless the bits
  * say nobody else can see it.
  */
module OwnershipMachine {
  import opened ProcSyntax
  import opened MoveAnalysis

  type Addr = nat

  datatype HVal = HNil | HInt(n: int) | HRef(a: Addr)

  /** A list with its box and backing array, or a struct (`structObj`).  `moved[i]` is a history
    * variable: no step reads it.  It records that field i was handed over by a field move; the
    * field still physically holds the list its new owner may now write. */
  datatype Cell =
    | ListCell(xs: seq<int>)
    | StructCell(vals: seq<HVal>, own: seq<bool>, moved: seq<bool>)

  /** Cells by address; a new cell is appended.  Address EMPTY is the one shared `[]`. */
  type Heap = seq<Cell>

  const EMPTY: Addr := 0

  /** The own bits of a struct fit one 64-bit word; a later field is never owned. */
  const OWN_BITS := 64

  /** `pfr`: one invocation's slots and their ownership bits. */
  datatype Frame = Frame(slots: seq<HVal>, own: seq<bool>)

  /** A value on its way into a slot, field or parameter, and whether its receiver owns it. */
  datatype Temp = Temp(v: HVal, owned: bool)

  datatype Out =
    | Norm(h: Heap, fr: Frame)
    | Ret(h: Heap, t: Temp)
    | Brk(h: Heap, fr: Frame)
    | Cont(h: Heap, fr: Frame)
    | Fail(fault: Fault)
    | Timeout

  function AsInt(v: HVal): int {
    if v.HInt? then v.n else 0
  }

  function Get(fr: Frame, x: Slot): HVal {
    if x < |fr.slots| then fr.slots[x] else HNil
  }

  predicate Owned(fr: Frame, x: Slot) {
    x < |fr.own| && fr.own[x]
  }

  /** `pfr.set` */
  function Put(fr: Frame, x: Slot, t: Temp): (fr': Frame)
    ensures |fr'.slots| == |fr.slots| && |fr'.own| == |fr.own|
  {
    if x < |fr.slots| && x < |fr.own| then Frame(fr.slots[x := t.v], fr.own[x := t.owned]) else fr
  }

  function Disown(fr: Frame, x: Slot): Frame {
    Put(fr, x, Temp(Get(fr, x), false))
  }

  /** Binds a result: an int slot takes its int value, any other slot the value itself. */
  function Bind(fr: Frame, ints: seq<bool>, x: Slot, t: Temp): Frame {
    if IsInt(ints, x) then Put(fr, x, Temp(HInt(AsInt(t.v)), false)) else Put(fr, x, t)
  }

  predicate IsList(h: Heap, v: HVal) {
    v.HRef? && v.a < |h| && h[v.a].ListCell?
  }

  predicate IsStruct(h: Heap, v: HVal) {
    v.HRef? && v.a < |h| && h[v.a].StructCell?
  }

  // ── inspecting reads: no ownership changes ──

  function Field(h: Heap, v: HVal, f: nat): Result<HVal> {
    if IsStruct(h, v) then Ok(if f < |h[v.a].vals| then h[v.a].vals[f] else HNil) else Err(NotStruct)
  }

  function At(h: Heap, v: HVal, k: int): Result<int> {
    if !IsList(h, v) then Err(NotIndexable)
    else if 0 <= k < |h[v.a].xs| then Ok(h[v.a].xs[k])
    else Err(OutOfBounds)
  }

  function Length(h: Heap, v: HVal): Result<int> {
    if IsList(h, v) then Ok(|h[v.a].xs|) else Err(NoLength)
  }

  function EvalInt(h: Heap, fr: Frame, e: IntExpr): Result<int> {
    match e
    case Lit(n) => Ok(n)
    case Var(x) => Ok(AsInt(Get(fr, x)))
    case Neg(e1) =>
      (match EvalInt(h, fr, e1)
       case Err(f) => Err(f)
       case Ok(n) => Ok(-n))
    case Bin(op, l, r) =>
      (match EvalInt(h, fr, l)
       case Err(f) => Err(f)
       case Ok(a) =>
         match EvalInt(h, fr, r)
         case Err(f) => Err(f)
         case Ok(b) => Ok(Arith(op, a, b)))
    case Index(x, i) =>
      (match EvalInt(h, fr, i)
       case Err(f) => Err(f)
       case Ok(k) => At(h, Get(fr, x), k))
    case Len(x) => Length(h, Get(fr, x))
    case FieldInt(x, f) =>
      (match Field(h, Get(fr, x), f)
       case Err(fault) => Err(fault)
       case Ok(v) => Ok(AsInt(v)))
    case FieldIndex(x, f, i) =>
      (match Field(h, Get(fr, x), f)
       case Err(fault) => Err(fault)
       case Ok(v) =>
         match EvalInt(h, fr, i)
         case Err(fault) => Err(fault)
         case Ok(k) => At(h, v, k))
    case FieldLen(x, f) =>
      (match Field(h, Get(fr, x), f)
       case Err(fault) => Err(fault)
       case Ok(v) => Length(h, v))
  }

  function EvalInts(h: Heap, fr: Frame, es: seq<IntExpr>): Result<seq<int>> {
    if es == [] then Ok([])
    else
      match EvalInt(h, fr, es[0])
      case Err(f) => Err(f)
      case Ok(n) =>
        match EvalInts(h, fr, es[1..])
        case Err(f) => Err(f)
        case Ok(ns) => Ok([n] + ns)
  }

  function EvalCond(h: Heap, fr: Frame, c: Cond): Result<bool> {
    match EvalInt(h, fr, c.l)
    case Err(f) => Err(f)
    case Ok(a) =>
      match EvalInt(h, fr, c.r)
      case Err(f) => Err(f)
      case Ok(b) => Ok(Compare(c.op, a, b))
  }

  // ── retained reads: ownership is given up or handed over ──

  datatype ArgOut = ArgOk(h: Heap, fr: Frame, t: Temp) | ArgErr(fault: Fault)

  function ReadLocal(h: Heap, fr: Frame, x: Slot, move: bool, keep: bool): ArgOut {
    if move then ArgOk(h, Put(fr, x, Temp(HNil, false)), Temp(Get(fr, x), Owned(fr, x)))
    else ArgOk(h, if keep then fr else Disown(fr, x), Temp(Get(fr, x), false))
  }

  predicate FieldOwned(c: Cell, f: nat) {
    c.StructCell? && f < OWN_BITS && f < |c.own| && c.own[f]
  }

  /** A struct gives field f up; a move leaves the value behind physically. */
  function GiveUp(c: Cell, f: nat, move: bool): Cell
    requires c.StructCell? && f < |c.own|
  {
    c.(own := c.own[f := false],
       moved := if move && f < |c.moved| then c.moved[f := true] else c.moved)
  }

  /** `takePath` for a path of one field, and (with `move` false) a retained field read. */
  function TakeField(h: Heap, fr: Frame, x: Slot, f: nat, move: bool): ArgOut {
    var v := Get(fr, x);
    if !IsStruct(h, v) then ArgErr(NotStruct)
    else if f >= |h[v.a].vals| then ArgOk(h, fr, Temp(HNil, false))
    else if Owned(fr, x) && FieldOwned(h[v.a], f) then
      ArgOk(h[v.a := GiveUp(h[v.a], f, move)], fr, Temp(h[v.a].vals[f], move))
    else ArgOk(h, fr, Temp(h[v.a].vals[f], false))
  }

  /** `moveArgTo`: `keep` says the callee borrows the parameter the argument goes to. */
  function EvalArg(h: Heap, fr: Frame, ints: seq<bool>, a: Arg, move: bool, keep: bool): ArgOut {
    match a
    case ArgInt(e) =>
      (match EvalInt(h, fr, e)
       case Err(f) => ArgErr(f)
       case Ok(n) => ArgOk(h, fr, Temp(HInt(n), FreshInt(e))))
    case ArgLocal(x) =>
      if IsInt(ints, x) then ArgOk(h, fr, Temp(HInt(AsInt(Get(fr, x))), false))
      else ReadLocal(h, fr, x, move, keep)
    case ArgField(x, f) => TakeField(h, fr, x, f, move)
  }

  datatype ArgsOut = ArgsOk(h: Heap, fr: Frame, ts: seq<Temp>) | ArgsErr(fault: Fault)

  /** Evaluates args[|done|..] at position q; `done` are the values already evaluated. */
  function EvalArgs(h: Heap, fr: Frame, pr: Proc, args: seq<Arg>, q: nat, borrow: nat -> bool, done: seq<Temp>): ArgsOut
    decreases |args| - |done|
  {
    if |done| >= |args| then ArgsOk(h, fr, done)
    else
      match EvalArg(h, fr, pr.ints, args[|done|], Moves(pr, q), borrow(|done|))
      case ArgErr(f) => ArgsErr(f)
      case ArgOk(h1, fr1, t) =>
        EvalArgs(h1, fr1, pr, args, q + ArgLen(args[|done|]), borrow, done + [t])
  }

  /** How many occurrences an argument compiles to. */
  function ArgLen(a: Arg): nat {
    if a.ArgInt? then |IntEvents(a.e)| else 1
  }

  predicate NeverBorrows(i: nat) {
    false
  }

  predicate Flat(h: Heap, ts: seq<Temp>) {
    forall t <- ts :: !IsStruct(h, t.v)
  }

  // ── building and writing values ──

  function NewCell(h: Heap, c: Cell): (Heap, HVal) {
    (h + [c], HRef(|h|))
  }

  function NewList(h: Heap, xs: seq<int>): (Heap, HVal) {
    if xs == [] then (h, HRef(EMPTY)) else NewCell(h, ListCell(xs))
  }

  function ListOf(h: Heap, v: HVal): seq<int> {
    if IsList(h, v) then h[v.a].xs else []
  }

  /** `appendCopy` */
  function AppendCopy(h: Heap, v: HVal, n: int): (Heap, HVal) {
    NewCell(h, ListCell(ListOf(h, v) + [n]))
  }

  /** `listGrow` / `growOwnedList`: in place, except that the shared `[]` is never written. */
  function Grow(h: Heap, v: HVal, n: int): (Heap, HVal)
    requires IsList(h, v)
  {
    if v.a == EMPTY then NewCell(h, ListCell([n])) else (h[v.a := ListCell(h[v.a].xs + [n])], v)
  }

  /** `cloneCompositeValue`: one level; the copy of a struct owns none of its fields. */
  function CloneCell(c: Cell): Cell {
    match c
    case ListCell(_) => c
    case StructCell(vals, own, moved) => StructCell(vals, seq(|own|, i => false), moved)
  }

  /** `pfr.mutable`: slot x's value ready for an in-place write. */
  function Mutable(h: Heap, fr: Frame, x: Slot): (Heap, Frame) {
    var v := Get(fr, x);
    if Owned(fr, x) || !v.HRef? || v.a >= |h| then (h, fr)
    else (h + [CloneCell(h[v.a])], Put(fr, x, Temp(HRef(|h|), true)))
  }

  function StructOf(ts: seq<Temp>): Cell {
    StructCell(seq(|ts|, i requires 0 <= i < |ts| => ts[i].v),
               seq(|ts|, i requires 0 <= i < |ts| => ts[i].owned && i < OWN_BITS),
               seq(|ts|, i => false))
  }

  /** A struct cell with field f overwritten; its own bit becomes `owned`. */
  function SetField(c: Cell, f: nat, t: Temp): Cell
    requires c.StructCell?
  {
    StructCell(if f < |c.vals| then c.vals[f := t.v] else c.vals,
               if f < |c.own| then c.own[f := t.owned && f < OWN_BITS] else c.own,
               if f < |c.moved| then c.moved[f := false] else c.moved)
  }

  /** The end of a field write: make the struct writable, then store. */
  function StoreField(h: Heap, fr: Frame, x: Slot, f: nat, t: Temp): Out {
    if IsStruct(h, t.v) then Fail(NotFlat)
    else
      var (h1, fr1) := Mutable(h, fr, x);
      var v := Get(fr1, x);
      if IsStruct(h1, v) && f < |h1[v.a].vals| then Norm(h1[v.a := SetField(h1[v.a], f, t)], fr1)
      else Fail(NoField)
  }

  // ── calls ──

  function EntryFrame(pr: Proc, ts: seq<Temp>): (fr: Frame)
    ensures |fr.slots| == |fr.own| == pr.nslots
  {
    Frame(seq(pr.nslots, x requires 0 <= x =>
            if x < pr.nparams && x < |ts| then
              if IsInt(pr.ints, x) then HInt(AsInt(ts[x].v)) else ts[x].v
            else HNil),
          seq(pr.nslots, x requires 0 <= x =>
            x < pr.nparams && x < |ts| && !IsInt(pr.ints, x) && x < OWN_BITS && ts[x].owned))
  }

  datatype CallOut = Returned(h: Heap, t: Temp) | Failed(fault: Fault) | OutOfFuel

  /** A body that does not return yields nothing, and owns nothing. */
  function CallResult(out: Out): CallOut {
    match out
    case Ret(h, t) => Returned(h, t)
    case Fail(f) => Failed(f)
    case Timeout => OutOfFuel
    case Norm(h, _) => Returned(h, Temp(HNil, false))
    case Brk(h, _) => Returned(h, Temp(HNil, false))
    case Cont(h, _) => Returned(h, Temp(HNil, false))
  }

  /** `runCodeOwned` */
  function RunProc(prog: seq<Proc>, fuel: nat, p: nat, h: Heap, ts: seq<Temp>): CallOut
    decreases fuel, 1, Skip
  {
    if p >= |prog| then Failed(UnknownProc)
    else if |ts| != prog[p].nparams then Failed(Arity)
    else if fuel == 0 then OutOfFuel
    else CallResult(Exec(prog, fuel - 1, prog[p], prog[p].body, prog[p].nparams, h, EntryFrame(prog[p], ts)))
  }

  datatype RhsOut = RhsOk(h: Heap, fr: Frame, t: Temp) | RhsErr(fault: Fault) | RhsTimeout

  function Callee(prog: seq<Proc>, p: nat): nat -> bool {
    (i: nat) => p < |prog| && Borrows(prog[p], i)
  }

  /** `ownedExpr` at position q; `target` is the slot being assigned, or -1 in a `let`. */
  function EvalRhs(prog: seq<Proc>, fuel: nat, pr: Proc, r: Rhs, target: int, q: nat, h: Heap, fr: Frame): RhsOut
    decreases fuel, 2, Skip
  {
    match r
    case Plain(a) =>
      (match EvalArg(h, fr, pr.ints, a, target < 0 && Moves(pr, q), false)
       case ArgErr(f) => RhsErr(f)
       case ArgOk(h1, fr1, t) => RhsOk(h1, fr1, t))
    case ListLit(es) =>
      (match EvalInts(h, fr, es)
       case Err(f) => RhsErr(f)
       case Ok(ns) => var (h1, v) := NewList(h, ns); RhsOk(h1, fr, Temp(v, true)))
    case Append(y, e) =>
      (match EvalInt(h, fr, e)
       case Err(f) => RhsErr(f)
       case Ok(n) =>
         var v := Get(fr, y);
         if IsList(h, v) && y != target && !IsInt(pr.ints, y) && Moves(pr, q) && Owned(fr, y) then
           var (h1, v1) := Grow(h, v, n);
           RhsOk(h1, Put(fr, y, Temp(HNil, false)), Temp(v1, true))
         else
           var (h1, v1) := AppendCopy(h, v, n);
           RhsOk(h1, fr, Temp(v1, true)))
    case StructLit(args) =>
      (match EvalArgs(h, fr, pr, args, q, NeverBorrows, [])
       case ArgsErr(f) => RhsErr(f)
       case ArgsOk(h1, fr1, ts) =>
         if Flat(h1, ts) then
           var (h2, v) := NewCell(h1, StructOf(ts));
           RhsOk(h2, fr1, Temp(v, true))
         else RhsErr(NotFlat))
    case Call(p, args) =>
      (match EvalArgs(h, fr, pr, args, q, Callee(prog, p), [])
       case ArgsErr(f) => RhsErr(f)
       case ArgsOk(h1, fr1, ts) =>
         match RunProc(prog, fuel, p, h1, ts)
         case Failed(f) => RhsErr(f)
         case OutOfFuel => RhsTimeout
         case Returned(h2, t) => RhsOk(h2, fr1, t))
  }

  // ── statements ──

  function ExecInt(h: Heap, fr: Frame, x: Slot, e: IntExpr): Out {
    match EvalInt(h, fr, e)
    case Err(f) => Fail(f)
    case Ok(n) => Norm(h, Put(fr, x, Temp(HInt(n), false)))
  }

  function BindOut(ints: seq<bool>, x: Slot, r: RhsOut): Out {
    match r
    case RhsErr(f) => Fail(f)
    case RhsTimeout => Timeout
    case RhsOk(h, fr, t) => Norm(h, Bind(fr, ints, x, t))
  }

  /** `xs = append(xs, e)`: grown in place when the slot owns the list. */
  function ExecAppend(h: Heap, fr: Frame, ints: seq<bool>, x: Slot, e: IntExpr): Out {
    match EvalInt(h, fr, e)
    case Err(f) => Fail(f)
    case Ok(n) =>
      var v := Get(fr, x);
      if !IsInt(ints, x) && IsList(h, v) && Owned(fr, x) then
        var (h1, v1) := Grow(h, v, n);
        Norm(h1, Put(fr, x, Temp(v1, true)))
      else
        var (h1, v1) := AppendCopy(h, v, n);
        Norm(h1, Bind(fr, ints, x, Temp(v1, true)))
  }

  function ExecIndexSet(h: Heap, fr: Frame, x: Slot, i: IntExpr, v: IntExpr): Out {
    if !IsList(h, Get(fr, x)) then Fail(NotIndexable)
    else
      match EvalInt(h, fr, i)
      case Err(f) => Fail(f)
      case Ok(k) =>
        if !(0 <= k < |h[Get(fr, x).a].xs|) then Fail(OutOfBounds)
        else
          match EvalInt(h, fr, v)
          case Err(f) => Fail(f)
          case Ok(n) =>
            var (h1, fr1) := Mutable(h, fr, x);
            var u := Get(fr1, x);
            if IsList(h1, u) && k < |h1[u.a].xs| then
              Norm(h1[u.a := ListCell(h1[u.a].xs[k := n])], fr1)
            else Fail(NotIndexable)
  }

  /** `x.f = a` at position q; the occurrence of a follows that of the target. */
  function ExecFieldSet(h: Heap, fr: Frame, pr: Proc, x: Slot, f: nat, a: Arg, q: nat): Out {
    if !IsStruct(h, Get(fr, x)) then Fail(NotStruct)
    else if f >= |h[Get(fr, x).a].vals| then Fail(NoField)
    else
      match EvalArg(h, fr, pr.ints, a, a.ArgLocal? && Moves(pr, q + 1), false)
      case ArgErr(fault) => Fail(fault)
      case ArgOk(h1, fr1, t) => StoreField(h1, fr1, x, f, t)
  }

  /** `x.f = append(x.f, e)` */
  function ExecFieldAppend(h: Heap, fr: Frame, x: Slot, f: nat, e: IntExpr): Out {
    var v := Get(fr, x);
    if !IsStruct(h, v) then Fail(NotStruct)
    else if f >= |h[v.a].vals| then Fail(NoField)
    else
      match EvalInt(h, fr, e)
      case Err(fault) => Fail(fault)
      case Ok(n) =>
        var fv := h[v.a].vals[f];
        if Owned(fr, x) && FieldOwned(h[v.a], f) && IsList(h, fv) then
          var (h1, fv1) := Grow(h, fv, n);
          Norm(if v.a < |h1| && h1[v.a].StructCell? then h1[v.a := SetField(h1[v.a], f, Temp(fv1, true))] else h1, fr)
        else
          var (h1, fr1) := Mutable(h, fr, x);
          var (h2, fv1) := AppendCopy(h1, fv, n);
          StoreField(h2, fr1, x, f, Temp(fv1, true))
  }

  /** The temporary of a nested write: the field is taken with its ownership when the slot owns
    * the struct and the struct the field; its physical value stays behind until written back. */
  function TakeNested(h: Heap, fr: Frame, x: Slot, f: nat, w: Slot): Out {
    match TakeField(h, fr, x, f, false)
    case ArgErr(fault) => Fail(fault)
    case ArgOk(h1, fr1, t) =>
      var owned := Owned(fr, x) && IsStruct(h, Get(fr, x)) && FieldOwned(h[Get(fr, x).a], f);
      Norm(h1, Put(fr1, w, Temp(t.v, owned)))
  }

  function ExecNestedSet(h: Heap, fr: Frame, pr: Proc, x: Slot, f: nat, w: Slot, i: IntExpr, v: IntExpr, q: nat): Out {
    match TakeNested(h, fr, x, f, w)
    case Norm(h1, fr1) =>
      (match ExecIndexSet(h1, fr1, w, i, v)
       case Norm(h2, fr2) =>
         ExecFieldSet(h2, fr2, pr, x, f, ArgLocal(w), q + 4 + |IntEvents(i)| + |IntEvents(v)|)
       case other => other)
    case other => other
  }

  function ExecReturn(h: Heap, fr: Frame, pr: Proc, a: Arg, q: nat): Out {
    match a
    case ArgLocal(x) =>
      if IsInt(pr.ints, x) then Ret(h, Temp(HInt(AsInt(Get(fr, x))), false))
      else Ret(h, Temp(Get(fr, x), Owned(fr, x)))
    case _ =>
      match EvalArg(h, fr, pr.ints, a, Moves(pr, q), false)
      case ArgErr(f) => Fail(f)
      case ArgOk(h1, _, t) => Ret(h1, t)
  }

  /** Runs a statement that has no block. */
  function ExecSimple(prog: seq<Proc>, fuel: nat, pr: Proc, s: Stmt, p: nat, h: Heap, fr: Frame): Out
    decreases fuel, 3, Skip
  {
    match s
    case LetInt(x, e) => ExecInt(h, fr, x, e)
    case SetInt(x, e) => ExecInt(h, fr, x, e)
    case Let(x, r) => BindOut(pr.ints, x, EvalRhs(prog, fuel, pr, r, -1, p, h, fr))
    case Set(x, r) =>
      if r.Append? && r.x == x then ExecAppend(h, fr, pr.ints, x, r.e)
      else BindOut(pr.ints, x, EvalRhs(prog, fuel, pr, r, x, p + 1, h, fr))
    case IndexSet(x, i, v) => ExecIndexSet(h, fr, x, i, v)
    case FieldSet(x, f, a) => ExecFieldSet(h, fr, pr, x, f, a, p)
    case FieldAppend(x, f, e) => ExecFieldAppend(h, fr, x, f, e)
    case NestedSet(x, f, w, i, v) => ExecNestedSet(h, fr, pr, x, f, w, i, v, p)
    case Break => Brk(h, fr)
    case Continue => Cont(h, fr)
    case Return(a) => ExecReturn(h, fr, pr, a, p)
    case _ => Norm(h, fr)
  }

  /** Runs statement s, whose first occurrence is at position p of pr. */
  function Exec(prog: seq<Proc>, fuel: nat, pr: Proc, s: Stmt, p: nat, h: Heap, fr: Frame): Out
    decreases fuel, 4, s
  {
    match s
    case Seq(s1, s2) =>
      var out := Exec(prog, fuel, pr, s1, p, h, fr);
      if out.Norm? then Exec(prog, fuel, pr, s2, p + |StmtEvents(pr.ints, s1)|, out.h, out.fr) else out
    case If(c, s1, s2) =>
      (match EvalCond(h, fr, c)
       case Err(f) => Fail(f)
       case Ok(b) =>
         var p1 := p + |CondEvents(c)|;
         if b then Exec(prog, fuel, pr, s1, p1, h, fr)
         else Exec(prog, fuel, pr, s2, p1 + |StmtEvents(pr.ints, s1)|, h, fr))
    case Loop(c, body) =>
      (match EvalCond(h, fr, c)
       case Err(f) => Fail(f)
       case Ok(b) =>
         if !b then Norm(h, fr)
         else if fuel == 0 then Timeout
         else
           var out := Exec(prog, fuel - 1, pr, body, p + |CondEvents(c)|, h, fr);
           if out.Norm? || out.Cont? then Exec(prog, fuel - 1, pr, s, p, out.h, out.fr)
           else if out.Brk? then Norm(out.h, out.fr)
           else out)
    case _ => ExecSimple(prog, fuel, pr, s, p, h, fr)
  }
}
