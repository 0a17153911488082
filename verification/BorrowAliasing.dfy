/** Arguments lent and moved by one call, where the engine departs from the language: an earlier
  * parameter shows what a later one owns. */
module BorrowAliasing {
  import opened ProcSyntax
  import opened MoveAnalysis
  import opened OwnershipMachine
  import opened ArgumentRefinement
  import Arguments
  import V = ValueMachine

  /** `f(a, b) { b[0] = 9; let t = a[0]; return t }` */
  function Writer(): Proc {
    Proc(2, 3, [false, false, true],
         Seq(IndexSet(1, Lit(0), Lit(9)), Seq(LetInt(2, Index(0, Lit(0))), Return(ArgInt(Var(2))))))
  }

  /** `main() { let x = [1]; let r = f(x, x); return r }` */
  function Aliaser(): Proc {
    Proc(0, 2, INTS, Seq(LetOne(), Seq(CallTwice(), Return(ArgLocal(1)))))
  }

  function Program(): seq<Proc> {
    [Aliaser(), Writer()]
  }

  function LetOne(): Stmt {
    Let(0, ListLit([Lit(1)]))
  }

  function TwiceX(): seq<Arg> {
    [ArgLocal(0), ArgLocal(0)]
  }

  function CallTwice(): Stmt {
    Let(1, Call(1, TwiceX()))
  }

  const INTS := [false, false]

  lemma LetOneEvents()
    ensures StmtEvents(INTS, LetOne()) == [Decl(0)]
  {
    assert [Lit(1)][1..] == [] && IntsEvents([Lit(1)]) == [];
  }

  lemma CallTwiceEvents()
    ensures StmtEvents(INTS, CallTwice()) == [MoveUse(0), MoveUse(0), Decl(1)]
  {
    assert TwiceX()[1..] == [ArgLocal(0)] && [ArgLocal(0)][1..] == [];
    assert ArgsEvents(INTS, [ArgLocal(0)], -1) == [MoveUse(0)];
    assert ArgsEvents(INTS, TwiceX(), -1) == [MoveUse(0), MoveUse(0)];
  }

  lemma AliaserEvents()
    ensures ProcEvents(Aliaser()) == [Decl(0), MoveUse(0), MoveUse(0), Decl(1), Use(1)]
    ensures ProcLoops(Aliaser()) == {}
  {
    LetOneEvents();
    CallTwiceEvents();
    var rest := Seq(CallTwice(), Return(ArgLocal(1)));
    assert StmtEvents(INTS, rest) == StmtEvents(INTS, CallTwice()) + StmtEvents(INTS, Return(ArgLocal(1)));
    assert Aliaser().body == Seq(LetOne(), rest) && Aliaser().ints == INTS;
    assert StmtEvents(INTS, Aliaser().body) == StmtEvents(INTS, LetOne()) + StmtEvents(INTS, rest);
    hide StmtEvents, ArgsEvents, RhsEvents;
    assert ProcEvents(Aliaser()) == [] + StmtEvents(INTS, Aliaser().body);
    NoLoops();
  }

  lemma NoLoops()
    ensures ProcLoops(Aliaser()) == {}
  {
    hide StmtEvents, ProcEvents;
    var rest := Seq(CallTwice(), Return(ArgLocal(1)));
    var p1 := |StmtEvents(INTS, LetOne())|;
    assert Loops(INTS, LetOne(), 0) == {} && Loops(INTS, CallTwice(), p1) == {};
    assert Loops(INTS, rest, p1) == {};
    assert Loops(INTS, Seq(LetOne(), rest), 0) == Loops(INTS, LetOne(), 0) + Loops(INTS, rest, p1);
  }

  lemma AliaserMoves()
    ensures !Moves(Aliaser(), 1) && Moves(Aliaser(), 2)
  {
    hide ProcEvents, ProcLoops;
    AliaserEvents();
    assert ProcEvents(Aliaser())[2].x == 0;
  }

  lemma WriterBorrows()
    ensures Borrows(Writer(), 0) && Borrows(Writer(), 1)
  {
  }

  /** On entry both parameters show one list and the second owns it: the write is seen through the
    * first. */
  lemma EngineSeesWrite(fuel: nat, h: Heap, a: Addr)
    requires EMPTY < a < |h| && h[a] == ListCell([1])
    ensures RunProc(Program(), fuel + 1, 1, h, [Temp(HRef(a), false), Temp(HRef(a), true)])
         == Returned(h[a := ListCell([9])], Temp(HInt(9), false))
  {
    hide Exec, ExecIndexSet, ExecInt;
    var pr, ts := Writer(), [Temp(HRef(a), false), Temp(HRef(a), true)];
    var fr := EntryFrame(pr, ts);
    assert fr.slots == [HRef(a), HRef(a), HNil] && fr.own == [false, true, false];
    var h1 := h[a := ListCell([9])];
    WritesInPlace(h, fr, a);
    var fr1 := Put(fr, 2, Temp(HInt(9), false));
    ReadsBack(h1, fr, a);
    var s1, s2, s3 := IndexSet(1, Lit(0), Lit(9)), LetInt(2, Index(0, Lit(0))), Return(ArgInt(Var(2)));
    assert StmtEvents(pr.ints, s1) == [Use(1)] && StmtEvents(pr.ints, s2) == [Use(0), Decl(2)];
    ThreeSteps(fuel, pr, s1, s2, s3, 2, h, fr, h1, fr, h1, fr1);
    assert ExecSimple(Program(), fuel, pr, s3, 5, h1, fr1) == Ret(h1, Temp(HInt(9), false));
  }

  predicate Plain1(s: Stmt) {
    !s.Seq? && !s.If? && !s.Loop?
  }

  lemma ThreeSteps(fuel: nat, pr: Proc, s1: Stmt, s2: Stmt, s3: Stmt, p: nat, h: Heap, fr: Frame, h1: Heap, fr1: Frame,
          h2: Heap, fr2: Frame)
    requires Plain1(s1) && Plain1(s2) && Plain1(s3)
    requires ExecSimple(Program(), fuel, pr, s1, p, h, fr) == Norm(h1, fr1)
    requires ExecSimple(Program(), fuel, pr, s2, p + |StmtEvents(pr.ints, s1)|, h1, fr1) == Norm(h2, fr2)
    ensures Exec(Program(), fuel, pr, Seq(s1, Seq(s2, s3)), p, h, fr)
      == ExecSimple(Program(), fuel, pr, s3, p + |StmtEvents(pr.ints, s1)| + |StmtEvents(pr.ints, s2)|, h2, fr2)
  {
    hide ExecSimple, StmtEvents;
    var p2 := p + |StmtEvents(pr.ints, s1)|;
    assert Exec(Program(), fuel, pr, s1, p, h, fr) == Norm(h1, fr1);
    assert Exec(Program(), fuel, pr, s2, p2, h1, fr1) == Norm(h2, fr2);
    var p3 := p2 + |StmtEvents(pr.ints, s2)|;
    assert Exec(Program(), fuel, pr, s3, p3, h2, fr2) == ExecSimple(Program(), fuel, pr, s3, p3, h2, fr2);
    assert Exec(Program(), fuel, pr, Seq(s2, s3), p2, h1, fr1) == Exec(Program(), fuel, pr, s3, p3, h2, fr2);
  }

  lemma WritesInPlace(h: Heap, fr: Frame, a: Addr)
    requires EMPTY < a < |h| && h[a] == ListCell([1])
    requires fr == Frame([HRef(a), HRef(a), HNil], [false, true, false])
    ensures ExecIndexSet(h, fr, 1, Lit(0), Lit(9)) == Norm(h[a := ListCell([9])], fr)
  {
    assert [1][0 := 9] == [9];
  }

  lemma ReadsBack(h: Heap, fr: Frame, a: Addr)
    requires EMPTY < a < |h| && h[a] == ListCell([9])
    requires fr == Frame([HRef(a), HRef(a), HNil], [false, true, false])
    ensures ExecInt(h, fr, 2, Index(0, Lit(0))) == Norm(h, Put(fr, 2, Temp(HInt(9), false)))
  {
    assert EvalInt(h, fr, Lit(0)) == Ok(0);
    assert Get(fr, 0) == HRef(a) && IsList(h, HRef(a)) && At(h, HRef(a), 0) == Ok(9);
    assert EvalInt(h, fr, Index(0, Lit(0))) == Ok(9);
  }

  /** Both arguments are read: the first lent, its slot keeping the bit; the second moved with it. */
  lemma ArgumentsAlias(h: Heap, a: Addr)
    requires EMPTY < a < |h|
    ensures EvalArgs(h, Frame([HRef(a), HNil], [true, false]), Aliaser(), TwiceX(), 1, Callee(Program(), 1), [])
         == ArgsOk(h, Frame([HNil, HNil], [false, false]), [Temp(HRef(a), false), Temp(HRef(a), true)])
  {
    AliaserMoves();
    WriterBorrows();
    hide Moves, Borrows;
    var fr := Frame([HRef(a), HNil], [true, false]);
    var fr1 := Frame([HNil, HNil], [false, false]);
    var lent, moved := Temp(HRef(a), false), Temp(HRef(a), true);
    var borrow := Callee(Program(), 1);
    assert borrow(0) && borrow(1);
    assert EvalArg(h, fr, INTS, ArgLocal(0), false, true) == ArgOk(h, fr, lent);
    assert Put(fr, 0, Temp(HNil, false)) == fr1;
    assert EvalArg(h, fr, INTS, ArgLocal(0), true, true) == ArgOk(h, fr1, moved);
    assert [lent] + [moved] == [lent, moved] && [] + [lent] == [lent];
    assert EvalArgs(h, fr1, Aliaser(), TwiceX(), 3, borrow, [lent, moved]) == ArgsOk(h, fr1, [lent, moved]);
    assert EvalArgs(h, fr, Aliaser(), TwiceX(), 2, borrow, [lent]) == ArgsOk(h, fr1, [lent, moved]);
  }

  /** The engine answers 9. */
  lemma EngineAnswers(fuel: nat, h: Heap)
    requires h != []
    ensures RunProc(Program(), fuel + 2, 0, h, []) == Returned(h + [ListCell([9])], Temp(HInt(9), false))
  {
    hide Exec, ExecSimple, RunProc, StmtEvents;
    var pr, a := Aliaser(), |h|;
    var fr0, fr1, fr2 := Frame([HNil, HNil], [false, false]), Frame([HRef(a), HNil], [true, false]),
      Frame([HNil, HInt(9)], [false, false]);
    var h1, h2 := h + [ListCell([1])], h + [ListCell([9])];
    var result := Temp(HInt(9), false);
    FirstList(fuel + 1, h, fr0);
    assert h1[a := ListCell([9])] == h2;
    EngineSeesWrite(fuel, h1, a);
    CallStep(fuel, h1, fr1, h2);
    LetOneEvents();
    CallTwiceEvents();
    ThreeSteps(fuel + 1, pr, LetOne(), CallTwice(), Return(ArgLocal(1)), 0, h, fr0, h1, fr1, h2, fr2);
    ReturnsSecond(fuel + 1, h2, fr2);
    MainRuns(fuel, h, Ret(h2, result));
  }

  lemma MainRuns(fuel: nat, h: Heap, out: Out)
    requires Exec(Program(), fuel + 1, Aliaser(), Aliaser().body, 0, h, Frame([HNil, HNil], [false, false])) == out
    ensures RunProc(Program(), fuel + 2, 0, h, []) == CallResult(out)
  {
    hide Exec;
    assert EntryFrame(Aliaser(), []) == Frame([HNil, HNil], [false, false]);
  }

  lemma CallStep(fuel: nat, h1: Heap, fr: Frame, h2: Heap)
    requires |h1| > 0 && fr == Frame([HRef(|h1| - 1), HNil], [true, false]) && |h1| - 1 > EMPTY
    requires RunProc(Program(), fuel + 1, 1, h1, [Temp(HRef(|h1| - 1), false), Temp(HRef(|h1| - 1), true)])
      == Returned(h2, Temp(HInt(9), false))
    ensures ExecSimple(Program(), fuel + 1, Aliaser(), CallTwice(), 1, h1, fr)
      == Norm(h2, Frame([HNil, HInt(9)], [false, false]))
  {
    hide EvalArgs, RunProc, Moves;
    ArgumentsAlias(h1, |h1| - 1);
    assert EvalRhs(Program(), fuel + 1, Aliaser(), Call(1, TwiceX()), -1, 1, h1, fr)
        == RhsOk(h2, Frame([HNil, HNil], [false, false]), Temp(HInt(9), false));
    hide EvalRhs;
    assert Bind(Frame([HNil, HNil], [false, false]), INTS, 1, Temp(HInt(9), false))
      == Frame([HNil, HInt(9)], [false, false]);
  }

  lemma ReturnsSecond(fuel: nat, h: Heap, fr: Frame)
    requires fr == Frame([HNil, HInt(9)], [false, false])
    ensures ExecSimple(Program(), fuel, Aliaser(), Return(ArgLocal(1)), 4, h, fr) == Ret(h, Temp(HInt(9), false))
  {
  }

  lemma FirstList(fuel: nat, h: Heap, fr: Frame)
    requires h != [] && fr == Frame([HNil, HNil], [false, false])
    ensures ExecSimple(Program(), fuel, Aliaser(), LetOne(), 0, h, fr)
         == Norm(h + [ListCell([1])], Frame([HRef(|h|), HNil], [true, false]))
  {
    assert [Lit(1)][1..] == [] && EvalInts(h, fr, []) == Ok([]) && EvalInt(h, fr, Lit(1)) == Ok(1);
    assert EvalInts(h, fr, [Lit(1)]) == Ok([1] + []) && [1] + [] == [1];
    assert NewList(h, [1]) == (h + [ListCell([1])], HRef(|h|));
    assert EvalRhs(Program(), fuel, Aliaser(), ListLit([Lit(1)]), -1, 0, h, fr)
        == RhsOk(h + [ListCell([1])], fr, Temp(HRef(|h|), true));
  }

  /** The language answers 1: `a` is another binding than `b`. */
  lemma LanguageAnswers(fuel: nat)
    ensures V.RunProc(Program(), fuel + 2, 0, []) == V.Returned(V.VInt(1))
  {
    var one := V.VList([1]);
    LanguageWriter(fuel);
    var main0 := V.EntryEnv(Aliaser(), []);
    assert main0 == [V.VNil, V.VNil];
    LanguageList(fuel + 1);
    LanguageCall(fuel);
    LanguageThree(fuel + 1, Aliaser(), LetOne(), CallTwice(), Return(ArgLocal(1)), main0, [one, V.VNil],
      [one, V.VInt(1)]);
    hide V.Exec;
    assert V.ExecSimple(Program(), fuel + 1, Aliaser(), Return(ArgLocal(1)), [one, V.VInt(1)]) == V.PRet(V.VInt(1));
  }

  lemma LanguageWriter(fuel: nat)
    ensures V.RunProc(Program(), fuel + 1, 1, [V.VList([1]), V.VList([1])]) == V.Returned(V.VInt(1))
  {
    var one, nine := V.VList([1]), V.VList([9]);
    var env0, env1, env2 := [one, one, V.VNil], [one, nine, V.VNil], [one, nine, V.VInt(1)];
    assert V.EntryEnv(Writer(), [one, one]) == env0;
    assert [1][0 := 9] == [9] && env0[1 := nine] == env1 && env1[2 := V.VInt(1)] == env2;
    var s1, s2, s3 := IndexSet(1, Lit(0), Lit(9)), LetInt(2, Index(0, Lit(0))), Return(ArgInt(Var(2)));
    assert V.EvalInt(env0, Lit(0)) == Ok(0) && V.EvalInt(env0, Lit(9)) == Ok(9);
    assert V.ExecSimple(Program(), fuel, Writer(), s1, env0) == V.PNorm(env1);
    assert V.EvalInt(env1, Lit(0)) == Ok(0) && V.Get(env1, 0) == one && V.At(one, 0) == Ok(1);
    assert V.EvalInt(env1, Index(0, Lit(0))) == Ok(1);
    assert V.ExecSimple(Program(), fuel, Writer(), s2, env1) == V.PNorm(env2);
    assert V.ExecSimple(Program(), fuel, Writer(), s3, env2) == V.PRet(V.VInt(1));
    LanguageThree(fuel, Writer(), s1, s2, s3, env0, env1, env2);
    hide V.Exec;
  }

  lemma LanguageList(fuel: nat)
    ensures V.ExecSimple(Program(), fuel, Aliaser(), LetOne(), [V.VNil, V.VNil]) == V.PNorm([V.VList([1]), V.VNil])
  {
    var env := [V.VNil, V.VNil];
    assert [Lit(1)][1..] == [] && V.EvalInts(env, []) == Ok([]) && V.EvalInt(env, Lit(1)) == Ok(1);
    assert V.EvalInts(env, [Lit(1)]) == Ok([1] + []) && [1] + [] == [1];
    assert V.EvalRhs(Program(), fuel, INTS, ListLit([Lit(1)]), env) == V.Returned(V.VList([1]));
    assert V.Bind(env, INTS, 0, V.VList([1])) == [V.VList([1]), V.VNil];
  }

  lemma LanguageCall(fuel: nat)
    requires V.RunProc(Program(), fuel + 1, 1, [V.VList([1]), V.VList([1])]) == V.Returned(V.VInt(1))
    ensures V.ExecSimple(Program(), fuel + 1, Aliaser(), CallTwice(), [V.VList([1]), V.VNil])
      == V.PNorm([V.VList([1]), V.VInt(1)])
  {
    hide V.RunProc;
    var one := V.VList([1]);
    var env := [one, V.VNil];
    assert V.EvalArg(env, INTS, ArgLocal(0)) == Ok(one);
    assert TwiceX()[1..] == [ArgLocal(0)] && [ArgLocal(0)][1..] == [] && V.EvalArgs(env, INTS, []) == Ok([]);
    assert V.EvalArgs(env, INTS, [ArgLocal(0)]) == Ok([one] + []) && [one] + [] == [one];
    assert V.EvalArgs(env, INTS, TwiceX()) == Ok([one] + [one]);
    assert [one] + [one] == [one, one];
    assert V.Bind(env, INTS, 1, V.VInt(1)) == [one, V.VInt(1)];
  }

  lemma LanguageThree(fuel: nat, pr: Proc, s1: Stmt, s2: Stmt, s3: Stmt, env: V.Env, env1: V.Env, env2: V.Env)
    requires Plain1(s1) && Plain1(s2) && Plain1(s3)
    requires V.ExecSimple(Program(), fuel, pr, s1, env) == V.PNorm(env1)
    requires V.ExecSimple(Program(), fuel, pr, s2, env1) == V.PNorm(env2)
    ensures V.Exec(Program(), fuel, pr, Seq(s1, Seq(s2, s3)), env) == V.ExecSimple(Program(), fuel, pr, s3, env2)
  {
    hide V.ExecSimple;
    assert V.Exec(Program(), fuel, pr, s1, env) == V.PNorm(env1);
    assert V.Exec(Program(), fuel, pr, s2, env1) == V.PNorm(env2);
    assert V.Exec(Program(), fuel, pr, s3, env2) == V.ExecSimple(Program(), fuel, pr, s3, env2);
    assert V.Exec(Program(), fuel, pr, Seq(s2, s3), env1) == V.Exec(Program(), fuel, pr, s3, env2);
  }

  /** A program outside the refinement theorem's one condition on calls, and outside the language:
    * the engine returns 9 where every binding having its own value gives 1. */
  lemma EngineDeparts(fuel: nat, h: Heap)
    requires h != []
    ensures !BorrowSafe(Aliaser(), TwiceX(), 1, Callee(Program(), 1))
    ensures V.RunProc(Program(), fuel + 2, 0, []) == V.Returned(V.VInt(1))
    ensures RunProc(Program(), fuel + 2, 0, h, []).Returned? && RunProc(Program(), fuel + 2, 0, h, []).t.v == HInt(9)
  {
    hide RunProc, V.RunProc, Moves;
    AliaserMoves();
    WriterBorrows();
    EngineAnswers(fuel, h);
    LanguageAnswers(fuel);
    assert Callee(Program(), 1)(0);
    assert ArgPos(TwiceX(), 1, 0) == 1 && ArgPos(TwiceX(), 1, 1) == 2;
    assert Arguments.LentTo(TwiceX(), Callee(Program(), 1), 0, 0) && Names(TwiceX()[1], 0);
  }

  /** Every argument before `u` that names the local whole is lent, and none of them moves it. */
  ghost predicate LentOnly(pr: Proc, args: seq<Arg>, q: nat, borrow: nat -> bool, x: Slot, from: nat, u: nat)
    requires u <= |args|
  {
    forall j: nat :: from <= j < u && args[j] == ArgLocal(x) ==> borrow(j) && !Moves(pr, ArgPos(args, q, j))
  }

  ghost predicate NotTaken(args: seq<Arg>, x: Slot, f: nat, from: nat, u: nat)
    requires u <= |args|
  {
    forall j: nat :: from <= j < u ==> args[j] != ArgField(x, f)
  }

  /** In a disciplined state no other owned slot holds the local's value. */
  ghost predicate HeldOnce(fr: Frame, x: Slot) {
    forall y: Slot :: y != x && Owned(fr, y) ==> Get(fr, y) != Get(fr, x)
  }

  /** One argument on: what it leaves of the local. */
  lemma ArgLeaves(h: Heap, fr: Frame, pr: Proc, a: Arg, move: bool, keep: bool, x: Slot)
    requires |fr.slots| == |fr.own| && !IsInt(pr.ints, x) && EvalArg(h, fr, pr.ints, a, move, keep).ArgOk?
    ensures var out := EvalArg(h, fr, pr.ints, a, move, keep);
      && |out.fr.slots| == |out.fr.own|
      && (Owned(out.fr, x) <==> Owned(fr, x) && (a == ArgLocal(x) ==> keep && !move))
      && ((a == ArgLocal(x) && move) || Get(out.fr, x) == Get(fr, x))
      && (a == ArgLocal(x) ==> out.t == Temp(Get(fr, x), move && Owned(fr, x)))
  {
  }

  lemma LentOnlyNext(pr: Proc, args: seq<Arg>, q0: nat, borrow: nat -> bool, x: Slot, i: nat, u: nat)
    requires i < u <= |args|
    ensures LentOnly(pr, args, q0, borrow, x, i, u)
      <==> (args[i] == ArgLocal(x) ==> borrow(i) && !Moves(pr, ArgPos(args, q0, i)))
           && LentOnly(pr, args, q0, borrow, x, i + 1, u)
  {
    hide Moves, ArgPos;
  }

  /** Exactly when a local passed before reaches the callee owned by a later argument `u`: its slot
    * owns it, `u` moves it, and every earlier argument naming it lent it. The owned value is then
    * what each of those shows. */
  lemma {:induction false} PassedTwice(h: Heap, fr: Frame, pr: Proc, args: seq<Arg>, q0: nat, q: nat,
          borrow: nat -> bool, done: seq<Temp>, u: nat, x: Slot)
    requires |fr.slots| == |fr.own| && |done| <= u < |args| && args[u] == ArgLocal(x) && !IsInt(pr.ints, x)
    requires q == ArgPos(args, q0, |done|) && EvalArgs(h, fr, pr, args, q, borrow, done).ArgsOk?
    ensures var ts := EvalArgs(h, fr, pr, args, q, borrow, done).ts;
      && |ts| == |args| && done <= ts
      && (ts[u].owned
        <==> Owned(fr, x) && Moves(pr, ArgPos(args, q0, u)) && LentOnly(pr, args, q0, borrow, x, |done|, u))
      && (ts[u].owned ==> forall j: nat :: |done| <= j <= u && args[j] == ArgLocal(x) ==> ts[j].v == Get(fr, x))
    decreases |args| - |done|
  {
    hide *;
    var i := |done|;
    var out := ArgPassed(h, fr, pr, args, q0, q, borrow, done, x);
    if i < u {
      LentOnlyNext(pr, args, q0, borrow, x, i, u);
      PassedTwice(out.h, out.fr, pr, args, q0, q + ArgLen(args[i]), borrow, done + [out.t], u, x);
    } else {
      NobodyYet(pr, args, q0, borrow, x, u);
    }
  }

  /** The next argument evaluated: its place among all of them and what it leaves of the local. */
  lemma ArgPassed(h: Heap, fr: Frame, pr: Proc, args: seq<Arg>, q0: nat, q: nat, borrow: nat -> bool, done: seq<Temp>,
          x: Slot) returns (out: ArgOut)
    requires |fr.slots| == |fr.own| && |done| < |args| && !IsInt(pr.ints, x)
    requires q == ArgPos(args, q0, |done|) && EvalArgs(h, fr, pr, args, q, borrow, done).ArgsOk?
    ensures out == EvalArg(h, fr, pr.ints, args[|done|], Moves(pr, q), borrow(|done|)) && out.ArgOk?
    ensures |out.fr.slots| == |out.fr.own| && q + ArgLen(args[|done|]) == ArgPos(args, q0, |done| + 1)
    ensures EvalArgs(h, fr, pr, args, q, borrow, done)
      == EvalArgs(out.h, out.fr, pr, args, q + ArgLen(args[|done|]), borrow, done + [out.t])
    ensures var ts := EvalArgs(h, fr, pr, args, q, borrow, done).ts;
      |ts| == |args| && done <= ts && ts[|done|] == out.t
    ensures Owned(out.fr, x) <==> Owned(fr, x) && (args[|done|] == ArgLocal(x) ==> borrow(|done|) && !Moves(pr, q))
    ensures (args[|done|] == ArgLocal(x) && Moves(pr, q)) || Get(out.fr, x) == Get(fr, x)
    ensures args[|done|] == ArgLocal(x) ==> out.t == Temp(Get(fr, x), Moves(pr, q) && Owned(fr, x))
  {
    hide *;
    var i := |done|;
    out := EvalArg(h, fr, pr.ints, args[i], Moves(pr, q), borrow(i));
    EvalArgsStep(h, fr, pr, args, q0, q, borrow, done);
    ArgLeaves(h, fr, pr, args[i], Moves(pr, q), borrow(i), x);
    var next := done + [out.t];
    EvalArgsLength(out.h, out.fr, pr, args, q + ArgLen(args[i]), borrow, next);
    var ts := EvalArgs(h, fr, pr, args, q, borrow, done).ts;
    assert ts[i] == next[i];
    assert done == next[..i] == ts[..i];
  }

  lemma EvalArgsStep(h: Heap, fr: Frame, pr: Proc, args: seq<Arg>, q0: nat, q: nat, borrow: nat -> bool,
          done: seq<Temp>)
    requires |done| < |args| && q == ArgPos(args, q0, |done|) && EvalArgs(h, fr, pr, args, q, borrow, done).ArgsOk?
    ensures var out := EvalArg(h, fr, pr.ints, args[|done|], Moves(pr, q), borrow(|done|));
      && out.ArgOk?
      && EvalArgs(h, fr, pr, args, q, borrow, done)
         == EvalArgs(out.h, out.fr, pr, args, q + ArgLen(args[|done|]), borrow, done + [out.t])
      && q + ArgLen(args[|done|]) == ArgPos(args, q0, |done| + 1)
  {
    hide EvalArg, Moves, ArgLen;
  }

  lemma NobodyYet(pr: Proc, args: seq<Arg>, q0: nat, borrow: nat -> bool, x: Slot, u: nat)
    requires u <= |args|
    ensures LentOnly(pr, args, q0, borrow, x, u, u)
  {
  }

  lemma {:induction false} EvalArgsLength(h: Heap, fr: Frame, pr: Proc, args: seq<Arg>, q: nat, borrow: nat -> bool,
          done: seq<Temp>)
    requires |done| <= |args| && EvalArgs(h, fr, pr, args, q, borrow, done).ArgsOk?
    ensures |EvalArgs(h, fr, pr, args, q, borrow, done).ts| == |args|
      && done <= EvalArgs(h, fr, pr, args, q, borrow, done).ts
    decreases |args| - |done|
  {
    hide Moves;
    if |done| < |args| {
      var out := EvalArg(h, fr, pr.ints, args[|done|], Moves(pr, q), borrow(|done|));
      EvalArgsLength(out.h, out.fr, pr, args, q + ArgLen(args[|done|]), borrow, done + [out.t]);
    }
  }

  /** What a local no slot owns hands on is never owned. */
  lemma {:induction false} UnownedPassed(h: Heap, fr: Frame, pr: Proc, args: seq<Arg>, q: nat, borrow: nat -> bool,
          done: seq<Temp>, u: nat, x: Slot, f: nat)
    requires |fr.slots| == |fr.own| && |done| <= u < |args| && args[u] == ArgField(x, f) && !IsInt(pr.ints, x)
      && !Owned(fr, x)
    requires EvalArgs(h, fr, pr, args, q, borrow, done).ArgsOk?
    ensures var ts := EvalArgs(h, fr, pr, args, q, borrow, done).ts; |ts| == |args| && !ts[u].owned
    decreases |args| - |done|
  {
    var i := |done|;
    var out := EvalArg(h, fr, pr.ints, args[i], Moves(pr, q), borrow(i));
    ArgLeaves(h, fr, pr, args[i], Moves(pr, q), borrow(i), x);
    var next := done + [out.t];
    EvalArgsLength(out.h, out.fr, pr, args, q + ArgLen(args[i]), borrow, next);
    if i < u {
      hide Moves, EvalArg, Owned;
      UnownedPassed(out.h, out.fr, pr, args, q + ArgLen(args[i]), borrow, next, u, x, f);
    } else {
      assert next[i] == out.t;
    }
  }

  /** One argument on: what it leaves of a struct the local owns. */
  lemma FieldLeaves(h: Heap, fr: Frame, pr: Proc, a: Arg, move: bool, keep: bool, x: Slot, f: nat)
    requires |fr.slots| == |fr.own| && !IsInt(pr.ints, x) && EvalArg(h, fr, pr.ints, a, move, keep).ArgOk?
    requires Owned(fr, x) && HeldOnce(fr, x) && HoldsField(h, fr, x, f)
    ensures var out := EvalArg(h, fr, pr.ints, a, move, keep); var c := Get(fr, x).a;
      && c < |out.h| && out.h[c].StructCell? && out.h[c].vals == h[c].vals
      && (FieldOwned(out.h[c], f) <==> FieldOwned(h[c], f) && a != ArgField(x, f))
      && (a == ArgField(x, f) ==> out.t == Temp(h[c].vals[f], move && FieldOwned(h[c], f)))
  {
  }

  lemma HeldOnceStays(h: Heap, fr: Frame, pr: Proc, a: Arg, move: bool, keep: bool, x: Slot)
    requires |fr.slots| == |fr.own| && EvalArg(h, fr, pr.ints, a, move, keep).ArgOk?
    requires HeldOnce(fr, x) && !(a == ArgLocal(x) && move)
    ensures HeldOnce(EvalArg(h, fr, pr.ints, a, move, keep).fr, x)
  {
    var out := EvalArg(h, fr, pr.ints, a, move, keep);
    forall y: Slot | y != x && Owned(out.fr, y) ensures Get(out.fr, y) != Get(out.fr, x) {
      assert Owned(fr, y) && Get(out.fr, y) == Get(fr, y);
    }
  }

  ghost predicate HoldsField(h: Heap, fr: Frame, x: Slot, f: nat) {
    IsStruct(h, Get(fr, x)) && f < |h[Get(fr, x).a].vals|
  }

  /** The same of a field of the local: it comes owned exactly when the local would and the struct owns
    * the field, which no earlier argument took. The field is then still what the lent struct shows. */
  lemma {:induction false} FieldPassed(h: Heap, fr: Frame, pr: Proc, args: seq<Arg>, q0: nat, q: nat,
          borrow: nat -> bool, done: seq<Temp>, u: nat, x: Slot, f: nat)
    requires |fr.slots| == |fr.own| && |done| <= u < |args| && args[u] == ArgField(x, f) && !IsInt(pr.ints, x)
    requires q == ArgPos(args, q0, |done|) && EvalArgs(h, fr, pr, args, q, borrow, done).ArgsOk?
    requires HeldOnce(fr, x) && HoldsField(h, fr, x, f)
    ensures FieldVerdict(h, fr, pr, args, q0, borrow, x, f, |done|, u, EvalArgs(h, fr, pr, args, q, borrow, done).ts)
    decreases |args| - |done|
  {
    hide *;
    var i := |done|;
    var out := ArgPassed(h, fr, pr, args, q0, q, borrow, done, x);
    var next, ts := done + [out.t], EvalArgs(h, fr, pr, args, q, borrow, done).ts;
    if !Owned(fr, x) {
      UnownedPassed(h, fr, pr, args, q, borrow, done, u, x, f);
      UnownedVerdict(h, fr, pr, args, q0, borrow, x, f, i, u, ts);
    } else if i == u {
      FieldPassedNow(h, fr, pr, args, q0, q, borrow, done, x, f);
    } else if Owned(out.fr, x) {
      FieldLeaves(h, fr, pr, args[i], Moves(pr, q), borrow(i), x, f);
      HeldOnceStays(h, fr, pr, args[i], Moves(pr, q), borrow(i), x);
      StillHolds(h, fr, out.h, out.fr, x, f);
      FieldPassed(out.h, out.fr, pr, args, q0, q + ArgLen(args[i]), borrow, next, u, x, f);
      VerdictBefore(h, fr, out.h, out.fr, pr, args, q0, borrow, x, f, i, u, ts);
    } else {
      UnownedPassed(out.h, out.fr, pr, args, q + ArgLen(args[i]), borrow, next, u, x, f);
      NoVerdict(h, fr, pr, args, q0, borrow, x, f, i, u, ts);
    }
  }

  lemma UnownedVerdict(h: Heap, fr: Frame, pr: Proc, args: seq<Arg>, q0: nat, borrow: nat -> bool, x: Slot, f: nat,
          i: nat, u: nat, ts: seq<Temp>)
    requires HoldsField(h, fr, x, f) && u < |args| && |ts| == |args| && !ts[u].owned && !Owned(fr, x)
    ensures FieldVerdict(h, fr, pr, args, q0, borrow, x, f, i, u, ts)
  {
    hide Moves, LentOnly, NotTaken, ArgPos, FieldOwned;
  }

  /** What the argument `u`, a field of the local, comes to. */
  ghost predicate FieldVerdict(h: Heap, fr: Frame, pr: Proc, args: seq<Arg>, q0: nat, borrow: nat -> bool, x: Slot,
          f: nat, from: nat, u: nat, ts: seq<Temp>)
    requires HoldsField(h, fr, x, f) && u < |args|
  {
    var c := h[Get(fr, x).a];
    && |ts| == |args|
    && (ts[u].owned <==> Owned(fr, x) && FieldOwned(c, f) && Moves(pr, ArgPos(args, q0, u))
                         && LentOnly(pr, args, q0, borrow, x, from, u) && NotTaken(args, x, f, from, u))
    && (ts[u].owned ==> ts[u].v == c.vals[f] && forall j: nat :: from <= j < u && args[j] == ArgLocal(x) ==>
      ts[j].v == Get(fr, x))
  }

  lemma FieldPassedNow(h: Heap, fr: Frame, pr: Proc, args: seq<Arg>, q0: nat, q: nat, borrow: nat -> bool,
          done: seq<Temp>, x: Slot, f: nat)
    requires |fr.slots| == |fr.own| && |done| < |args| && args[|done|] == ArgField(x, f) && !IsInt(pr.ints, x)
    requires q == ArgPos(args, q0, |done|) && EvalArgs(h, fr, pr, args, q, borrow, done).ArgsOk?
    requires Owned(fr, x) && HeldOnce(fr, x) && HoldsField(h, fr, x, f)
    ensures FieldVerdict(h, fr, pr, args, q0, borrow, x, f, |done|, |done|,
      EvalArgs(h, fr, pr, args, q, borrow, done).ts)
  {
    var i := |done|;
    var out := EvalArg(h, fr, pr.ints, args[i], Moves(pr, q), borrow(i));
    hide Moves, EvalArg, EvalArgs, LentOnly, NotTaken, HeldOnce, HoldsField, Owned, Get, ArgLen, ArgPos, FieldOwned;
    EvalArgsStep(h, fr, pr, args, q0, q, borrow, done);
    FieldLeaves(h, fr, pr, args[i], Moves(pr, q), borrow(i), x, f);
    var next := done + [out.t];
    EvalArgsLength(out.h, out.fr, pr, args, q + ArgLen(args[i]), borrow, next);
    assert EvalArgs(h, fr, pr, args, q, borrow, done).ts[i] == next[i];
    NobodyYet(pr, args, q0, borrow, x, i);
    NothingTaken(args, x, f, i);
  }

  lemma VerdictBefore(h: Heap, fr: Frame, h1: Heap, fr1: Frame, pr: Proc, args: seq<Arg>, q0: nat, borrow: nat -> bool,
          x: Slot, f: nat, i: nat, u: nat, ts: seq<Temp>)
    requires HoldsField(h, fr, x, f) && HoldsField(h1, fr1, x, f) && i < u < |args| && |ts| == |args|
    requires Owned(fr, x) && Owned(fr1, x) && Get(fr1, x) == Get(fr, x) && h1[Get(fr, x).a].vals == h[Get(fr, x).a].vals
    requires args[i] == ArgLocal(x) ==> borrow(i) && !Moves(pr, ArgPos(args, q0, i)) && ts[i].v == Get(fr, x)
    requires FieldOwned(h1[Get(fr, x).a], f) <==> FieldOwned(h[Get(fr, x).a], f) && args[i] != ArgField(x, f)
    requires FieldVerdict(h1, fr1, pr, args, q0, borrow, x, f, i + 1, u, ts)
    ensures FieldVerdict(h, fr, pr, args, q0, borrow, x, f, i, u, ts)
  {
    hide Moves, LentOnly, NotTaken, HoldsField, Owned, Get, ArgPos, FieldOwned;
    LentOnlyNext(pr, args, q0, borrow, x, i, u);
    NotTakenNext(args, x, f, i, u);
  }

  lemma NoVerdict(h: Heap, fr: Frame, pr: Proc, args: seq<Arg>, q0: nat, borrow: nat -> bool, x: Slot, f: nat, i: nat,
          u: nat, ts: seq<Temp>)
    requires HoldsField(h, fr, x, f) && i < u < |args| && |ts| == |args| && !ts[u].owned
    requires !(args[i] == ArgLocal(x) ==> borrow(i) && !Moves(pr, ArgPos(args, q0, i)))
    ensures FieldVerdict(h, fr, pr, args, q0, borrow, x, f, i, u, ts)
  {
    hide Moves, LentOnly, NotTaken, HoldsField, Owned, Get, ArgPos, FieldOwned;
    LentOnlyNext(pr, args, q0, borrow, x, i, u);
  }

  lemma StillHolds(h: Heap, fr: Frame, h1: Heap, fr1: Frame, x: Slot, f: nat)
    requires HoldsField(h, fr, x, f) && Get(fr1, x) == Get(fr, x) && Get(fr, x).a < |h1|
    requires h1[Get(fr, x).a].StructCell? && h1[Get(fr, x).a].vals == h[Get(fr, x).a].vals
    ensures HoldsField(h1, fr1, x, f)
  {
  }

  lemma NothingTaken(args: seq<Arg>, x: Slot, f: nat, u: nat)
    requires u <= |args|
    ensures NotTaken(args, x, f, u, u)
  {
  }

  lemma NotTakenNext(args: seq<Arg>, x: Slot, f: nat, i: nat, u: nat)
    requires i < u <= |args|
    ensures NotTaken(args, x, f, i, u) <==> args[i] != ArgField(x, f) && NotTaken(args, x, f, i + 1, u)
  {
  }
}
