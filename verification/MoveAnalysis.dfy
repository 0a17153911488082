/** The compile-time half of the ownership engine: every declaration and name resolution is
  * numbered in textual order, and a read may hand its value over (a move) when nothing later
  * in the text, and no loop around it, could read that value again.
  *
  * Position q here is the index of an occurrence, so it is the compiler's `pos` minus one.
  */
module MoveAnalysis {
  import opened ProcSyntax

  /** One declaration or occurrence of a slot.  `MoveUse`, `SelfUse` and `FieldMove` are the
    * candidates (`moveCand`, `moveCand.self`, `fieldMoveCand`); `Path` and `FieldMove` read a
    * field of the slot, the other occurrences read or assign it whole. */
  datatype Event =
    | Decl(x: Slot)
    | Use(x: Slot)
    | Path(x: Slot, f: nat)
    | MoveUse(x: Slot)
    | SelfUse(x: Slot, last: bool)
    | FieldMove(x: Slot, f: nat)

  type Events = seq<Event>

  predicate Whole(e: Event) {
    e.Use? || e.MoveUse? || e.SelfUse?
  }

  predicate ReadsPath(e: Event, f: nat) {
    (e.Path? || e.FieldMove?) && e.f == f
  }

  // ── the occurrences a piece of syntax compiles to, in order ──

  function IntEvents(e: IntExpr): Events {
    match e
    case Lit(_) => []
    case Var(x) => [Use(x)]
    case Neg(e1) => IntEvents(e1)
    case Bin(_, l, r) => IntEvents(l) + IntEvents(r)
    case Index(x, i) => IntEvents(i) + [Use(x)]
    case Len(x) => [Use(x)]
    case FieldInt(x, f) => [Path(x, f)]
    case FieldIndex(x, f, i) => IntEvents(i) + [Path(x, f)]
    case FieldLen(x, f) => [Path(x, f)]
  }

  function IntsEvents(es: seq<IntExpr>): Events {
    if es == [] then [] else IntEvents(es[0]) + IntsEvents(es[1..])
  }

  function CondEvents(c: Cond): Events {
    IntEvents(c.l) + IntEvents(c.r)
  }

  predicate Mentions(ev: Events, x: Slot) {
    exists e <- ev :: e.x == x
  }

  /** A retained read that is no candidate: the value of `x = y`, of `x = y.f`, and the like. */
  function RetainedEvents(a: Arg): Events {
    match a
    case ArgInt(e) => IntEvents(e)
    case ArgLocal(x) => [Use(x)]
    case ArgField(x, f) => [Path(x, f)]
  }

  /** `moveArg`: a local or a field of one is a candidate.  `target` is the slot the statement
    * assigns, whose old value dies there; `rest` are the occurrences still to come before
    * that assignment (`selfMoves` settles the candidate against exactly those). */
  function ArgEvents(ints: seq<bool>, a: Arg, target: int, rest: Events): Events {
    match a
    case ArgInt(e) => IntEvents(e)
    case ArgLocal(x) =>
      if IsInt(ints, x) then [Use(x)]
      else if x == target then [SelfUse(x, !Mentions(rest, x))]
      else [MoveUse(x)]
    case ArgField(x, f) => [FieldMove(x, f)]
  }

  function ArgsEvents(ints: seq<bool>, args: seq<Arg>, target: int): Events {
    if args == [] then []
    else
      var rest := ArgsEvents(ints, args[1..], target);
      ArgEvents(ints, args[0], target, rest) + rest
  }

  function RhsEvents(ints: seq<bool>, r: Rhs, target: int): Events {
    match r
    case Plain(a) => if target < 0 then ArgEvents(ints, a, target, []) else RetainedEvents(a)
    case ListLit(es) => IntsEvents(es)
    case Append(y, e) =>
      if y == target then IntEvents(e) + [Use(y)] + IntEvents(e)
      else [if IsInt(ints, y) then Use(y) else MoveUse(y)] + IntEvents(e)
    case StructLit(args) => ArgsEvents(ints, args, -1)
    case Call(_, args) => ArgsEvents(ints, args, target)
  }

  function StoredEvents(ints: seq<bool>, a: Arg): Events {
    match a
    case ArgLocal(_) => ArgEvents(ints, a, -1, [])
    case _ => RetainedEvents(a)
  }

  function ReturnEvents(a: Arg): Events {
    match a
    case ArgInt(e) => IntEvents(e)
    case ArgLocal(x) => [Use(x)]
    case ArgField(x, f) => [FieldMove(x, f)]
  }

  function StmtEvents(ints: seq<bool>, s: Stmt): Events {
    match s
    case Skip => []
    case Seq(s1, s2) => StmtEvents(ints, s1) + StmtEvents(ints, s2)
    case LetInt(x, e) => IntEvents(e) + [Decl(x)]
    case SetInt(x, e) => [Use(x)] + IntEvents(e)
    case Let(x, r) => RhsEvents(ints, r, -1) + [Decl(x)]
    case Set(x, r) => [Use(x)] + RhsEvents(ints, r, x)
    case IndexSet(x, i, v) => [Use(x)] + IntEvents(i) + IntEvents(v)
    case FieldSet(x, _, a) => [Use(x)] + StoredEvents(ints, a)
    case FieldAppend(x, _, e) => [Use(x), Use(x)] + IntEvents(e)
    case NestedSet(x, f, w, i, v) =>
      [Use(x), Path(x, f), Decl(w)] + ([Use(w)] + IntEvents(i) + IntEvents(v)) + [Use(x), MoveUse(w)]
    case If(c, s1, s2) => CondEvents(c) + StmtEvents(ints, s1) + StmtEvents(ints, s2)
    case Loop(c, body) => CondEvents(c) + StmtEvents(ints, body)
    case Break => []
    case Continue => []
    case Return(a) => ReturnEvents(a)
  }

  function ProcEvents(pr: Proc): Events {
    seq(pr.nparams, i requires 0 <= i => Decl(i)) + StmtEvents(pr.ints, pr.body)
  }

  // ── loops: the position ranges their conditions and bodies span ──

  function Loops(ints: seq<bool>, s: Stmt, p: nat): set<(nat, nat)> {
    match s
    case Seq(s1, s2) => Loops(ints, s1, p) + Loops(ints, s2, p + |StmtEvents(ints, s1)|)
    case If(c, s1, s2) =>
      var p1 := p + |CondEvents(c)|;
      Loops(ints, s1, p1) + Loops(ints, s2, p1 + |StmtEvents(ints, s1)|)
    case Loop(c, body) =>
      {(p, p + |StmtEvents(ints, s)|)} + Loops(ints, body, p + |CondEvents(c)|)
    case _ => {}
  }

  function ProcLoops(pr: Proc): set<(nat, nat)> {
    Loops(pr.ints, pr.body, pr.nparams)
  }

  // ── what the analysis asks ──

  predicate NoLater(ev: Events, x: Slot, p: nat) {
    forall q :: p <= q < |ev| ==> ev[q].x != x
  }

  predicate NoWhole(ev: Events, x: Slot, p: nat) {
    forall q :: p <= q < |ev| ==> !(ev[q].x == x && Whole(ev[q]))
  }

  predicate NoPath(ev: Events, x: Slot, f: nat, p: nat) {
    forall q :: p <= q < |ev| ==> !(ev[q].x == x && ReadsPath(ev[q], f))
  }

  predicate DeclaredIn(ev: Events, x: Slot, lo: nat, hi: nat) {
    exists d :: lo <= d < hi && d < |ev| && ev[d] == Decl(x)
  }

  /** Every loop around q declares x inside it. */
  predicate LoopLocal(ev: Events, loops: set<(nat, nat)>, x: Slot, q: nat) {
    forall l <- loops :: l.0 <= q < l.1 ==> DeclaredIn(ev, x, l.0, |ev|)
  }

  /** `decideMoves` and `selfMoves`: whether the candidate at q hands its value over. */
  predicate Decide(ev: Events, loops: set<(nat, nat)>, q: nat) {
    q < |ev| &&
    match ev[q]
    case MoveUse(x) => NoLater(ev, x, q + 1) && LoopLocal(ev, loops, x, q)
    case SelfUse(_, last) => last
    case FieldMove(x, f) => NoWhole(ev, x, q) && NoPath(ev, x, f, q + 1) && LoopLocal(ev, loops, x, q)
    case _ => false
  }

  predicate Moves(pr: Proc, q: nat) {
    Decide(ProcEvents(pr), ProcLoops(pr), q)
  }
}
