/** The ownership engine computes what copy on bind computes: every statement, every call and
  * every run, whatever the program, the arguments and the number of steps.
  */
module Refinement {
  import opened ProcSyntax
  import V = ValueMachine
  import opened MoveAnalysis
  import opened OwnershipMachine
  import opened Ownership
  import opened OwnershipUpdates
  import opened Simulation
  import opened Arguments
  import opened ArgumentRefinement
  import opened RhsRefinement
  import opened WriteRefinement
  import opened StatementRefinement
  import opened FieldRefinement
  import opened ValueRefinement
  import opened CallRefinement

  // ── the programs in scope ──

  /** What is declared inside a block does not occur after it. */
  ghost predicate BlockScoped(ev: Events, lo: nat, hi: nat) {
    forall x: Slot :: DeclaredIn(ev, x, lo, hi) ==> NoLater(ev, x, hi)
  }

  ghost predicate Scoped(pr: Proc, s: Stmt, p: nat) {
    match s
    case Seq(s1, s2) => Scoped(pr, s1, p) && Scoped(pr, s2, p + |StmtEvents(pr.ints, s1)|)
    case If(c, s1, s2) =>
      var p1 := p + |CondEvents(c)|;
      var p2 := p1 + |StmtEvents(pr.ints, s1)|;
      && Scoped(pr, s1, p1) && BlockScoped(ProcEvents(pr), p1, p2)
      && Scoped(pr, s2, p2) && BlockScoped(ProcEvents(pr), p2, p2 + |StmtEvents(pr.ints, s2)|)
    case Loop(c, body) =>
      var p1 := p + |CondEvents(c)|;
      Scoped(pr, body, p1) && BlockScoped(ProcEvents(pr), p1, p1 + |StmtEvents(pr.ints, body)|)
    case _ => true
  }

  /** No call moves a local it also lends, and the temporary of a nested write is no int. */
  ghost predicate CallsSafe(prog: seq<Proc>, pr: Proc, s: Stmt, p: nat) {
    match s
    case Seq(s1, s2) => CallsSafe(prog, pr, s1, p) && CallsSafe(prog, pr, s2, p + |StmtEvents(pr.ints, s1)|)
    case Let(_, r) => r.Call? ==> BorrowSafe(pr, r.args, p, Callee(prog, r.p))
    case Set(_, r) => r.Call? ==> BorrowSafe(pr, r.args, p + 1, Callee(prog, r.p))
    case NestedSet(_, _, w, _, _) => !IsInt(pr.ints, w)
    case If(c, s1, s2) =>
      var p1 := p + |CondEvents(c)|;
      CallsSafe(prog, pr, s1, p1) && CallsSafe(prog, pr, s2, p1 + |StmtEvents(pr.ints, s1)|)
    case Loop(c, body) => CallsSafe(prog, pr, body, p + |CondEvents(c)|)
    case _ => true
  }

  ghost predicate WellFormedProc(prog: seq<Proc>, pr: Proc) {
    && WellDeclared(ProcEvents(pr))
    && Scoped(pr, pr.body, pr.nparams)
    && CallsSafe(prog, pr, pr.body, pr.nparams)
  }

  ghost predicate WellFormed(prog: seq<Proc>) {
    forall pr <- prog :: WellFormedProc(prog, pr)
  }

  /** A statement of pr at position p, inside the loops starting at K. */
  ghost predicate Placed(prog: seq<Proc>, pr: Proc, s: Stmt, p: nat, o: Outside, K: set<nat>) {
    && WellFormed(prog)
    && Site(pr, StmtEvents(pr.ints, s), K, p)
    && Loops(pr.ints, s, p) <= ProcLoops(pr)
    && Scoped(pr, s, p) && CallsSafe(prog, pr, s, p)
    && Escapes(pr.ints, s) <= o.escaping
  }

  // ── outcomes ──

  ghost predicate Continues(h: Heap, h': Heap, fr': Frame, env': V.Env, o: Outside, ev: Events, R: set<nat>) {
    Disciplined(h', fr', o) && Keeps(h, h', o.kept) && SimAll(h', fr', env', ev, R, {})
  }

  /** The engine's outcome against the language's: the same transfer of control, the same values,
    * the discipline kept, and nothing outside changed. */
  ghost predicate OutMatches(h: Heap, out: Out, pout: V.POut, o: Outside, ev: Events, K: set<nat>, q: nat) {
    match out
    case Norm(h', fr') => pout.PNorm? && Continues(h, h', fr', pout.env, o, ev, {q} + K)
    case Brk(h', fr') => pout.PBrk? && Continues(h, h', fr', pout.env, o, ev, K)
    case Cont(h', fr') => pout.PCont? && Continues(h, h', fr', pout.env, o, ev, K)
    case Ret(h', t) => pout.PRet? && Handed(h', t, o, pout.v) && Keeps(h, h', o.kept)
    case Fail(f) => pout == V.PFail(f)
    case Timeout => pout == V.PTimeout
  }

  lemma StmtOut(h: Heap, out: Out, pout: V.POut, o: Outside, ev: Events, K: set<nat>, q: nat)
    requires StmtMatches(h, out, pout, o, ev, {q} + K)
    ensures OutMatches(h, out, pout, o, ev, K, q)
  {
  }

  lemma OutThrough(h: Heap, h1: Heap, out: Out, pout: V.POut, o: Outside, ev: Events, K: set<nat>, q: nat)
    requires Keeps(h, h1, o.kept) && OutMatches(h1, out, pout, o, ev, K, q)
    ensures OutMatches(h, out, pout, o, ev, K, q)
  {
  }

  /** What is declared in a block that was skipped or left is not needed after it. */
  lemma SimSkip(h: Heap, fr: Frame, env: V.Env, ev: Events, K: set<nat>, lo: nat, hi: nat)
    requires SimAll(h, fr, env, ev, {lo} + K, {}) && lo <= hi && BlockScoped(ev, lo, hi)
    ensures SimAll(h, fr, env, ev, {hi} + K, {})
  {
    forall x: Slot
      ensures Fit(h, Get(fr, x), V.Get(env, x), ev, x, {hi} + K)
    {
      assert Fit(h, Get(fr, x), V.Get(env, x), ev, x, {lo} + K);
      assert Good(h, Get(fr, x), V.Get(env, x), ev, x, lo);
      if !DeclaredIn(ev, x, lo, hi) {
        GoodLater(h, Get(fr, x), V.Get(env, x), ev, x, lo, hi);
      }
    }
  }

  lemma SimSubset(h: Heap, fr: Frame, env: V.Env, ev: Events, R: set<nat>, R': set<nat>)
    requires SimAll(h, fr, env, ev, R, {}) && R' <= R
    ensures SimAll(h, fr, env, ev, R', {})
  {
    forall x: Slot ensures Fit(h, Get(fr, x), V.Get(env, x), ev, x, R') {
      assert Fit(h, Get(fr, x), V.Get(env, x), ev, x, R);
    }
  }

  // ── calls ──

  ghost predicate CallMatches(h: Heap, fr: Frame, r: CallOut, c: V.CallOut, o: Outside) {
    match r
    case Failed(f) => c == V.Failed(f)
    case OutOfFuel => c == V.OutOfFuel
    case Returned(h', t) =>
      && c.Returned? && InFlight(h', fr, o, t, c.v) && Keeps(h, h', o.kept)
      && forall j: Slot :: Agree(h, h', Get(fr, j))
  }

  lemma BodyPlaced(prog: seq<Proc>, pr: Proc, o: Outside)
    requires WellFormed(prog) && pr in prog && Escapes(pr.ints, pr.body) <= o.escaping
    ensures Placed(prog, pr, pr.body, pr.nparams, o, {})
  {
    var ps := seq(pr.nparams, i requires 0 <= i => Decl(i));
    assert ProcEvents(pr)[pr.nparams..] == StmtEvents(pr.ints, pr.body);
  }

  lemma SimCalled(h: Heap, h': Heap, fr: Frame, env: V.Env, ev: Events, R: set<nat>, dead: set<Slot>)
    requires HeapOk(h) && SimAll(h, fr, env, ev, R, dead)
    requires forall j: Slot :: ValOk(h, Get(fr, j)) && Agree(h, h', Get(fr, j))
    ensures SimAll(h', fr, env, ev, R, dead)
  {
    forall x: Slot | x !in dead
      ensures Fit(h', Get(fr, x), V.Get(env, x), ev, x, R)
    {
      FitAgree(h, h', Get(fr, x), V.Get(env, x), ev, x, R);
    }
  }

  // ── one step of each machine ──

  lemma SeqRun(prog: seq<Proc>, fuel: nat, pr: Proc, s1: Stmt, s2: Stmt, p: nat, h: Heap, fr: Frame, env: V.Env)
    ensures var out1 := Exec(prog, fuel, pr, s1, p, h, fr);
            Exec(prog, fuel, pr, Seq(s1, s2), p, h, fr) ==
            if out1.Norm? then Exec(prog, fuel, pr, s2, p + |StmtEvents(pr.ints, s1)|, out1.h, out1.fr) else out1
    ensures var out1 := V.Exec(prog, fuel, pr, s1, env);
            V.Exec(prog, fuel, pr, Seq(s1, s2), env) == if out1.PNorm? then V.Exec(prog, fuel, pr, s2, out1.env)
              else out1
  {
    hide StmtEvents, ExecSimple, V.ExecSimple, EvalCond, V.EvalCond, CondEvents;
  }

  lemma LoopRun(prog: seq<Proc>, fuel: nat, pr: Proc, c: Cond, body: Stmt, p: nat, h: Heap, fr: Frame)
    ensures var r := Exec(prog, fuel, pr, Loop(c, body), p, h, fr);
            match EvalCond(h, fr, c)
            case Err(f) => r == Fail(f)
            case Ok(false) => r == Norm(h, fr)
            case Ok(true) =>
              if fuel == 0 then r == Timeout
              else
                var out := Exec(prog, fuel - 1, pr, body, p + |CondEvents(c)|, h, fr);
                r == if out.Norm? || out.Cont? then Exec(prog, fuel - 1, pr, Loop(c, body), p, out.h, out.fr)
                     else if out.Brk? then Norm(out.h, out.fr)
                     else out
  {
    hide EvalCond, CondEvents, ExecSimple, StmtEvents;
  }

  lemma LoopRunPure(prog: seq<Proc>, fuel: nat, pr: Proc, c: Cond, body: Stmt, env: V.Env)
    ensures var r := V.Exec(prog, fuel, pr, Loop(c, body), env);
            match V.EvalCond(env, c)
            case Err(f) => r == V.PFail(f)
            case Ok(false) => r == V.PNorm(env)
            case Ok(true) =>
              if fuel == 0 then r == V.PTimeout
              else
                var out := V.Exec(prog, fuel - 1, pr, body, env);
                r == if out.PNorm? || out.PCont? then V.Exec(prog, fuel - 1, pr, Loop(c, body), out.env)
                     else if out.PBrk? then V.PNorm(out.env)
                     else out
  {
    hide V.EvalCond, V.ExecSimple;
  }

  lemma CallRun(prog: seq<Proc>, fuel: nat, p: nat, h: Heap, ts: seq<Temp>, vs: seq<V.Val>)
    requires |ts| == |vs|
    ensures if p < |prog| && |ts| == prog[p].nparams && fuel > 0 then
              && RunProc(prog, fuel, p, h, ts)
                 == CallResult(Exec(prog, fuel - 1, prog[p], prog[p].body, prog[p].nparams, h, EntryFrame(prog[p], ts)))
              && V.RunProc(prog, fuel, p, vs)
                 == V.CallResult(V.Exec(prog, fuel - 1, prog[p], prog[p].body, V.EntryEnv(prog[p], vs)))
            else
              && CallMatches(h, Frame([], []), RunProc(prog, fuel, p, h, ts), V.RunProc(prog, fuel, p, vs),
                Outside({}, {}, {}))
              && !RunProc(prog, fuel, p, h, ts).Returned?
  {
    hide Exec, V.Exec, EntryFrame, V.EntryEnv, CallResult, V.CallResult;
  }

  /** A callee that falls off its end, or leaves by a stray break, returns nothing. */
  lemma NothingReturned(h: Heap, fr: Frame, o: Outside, pr: Proc, h': Heap)
    requires HeapOk(h')
    ensures Handed(h', Temp(HNil, false), CalleeOutside(h, fr, o, pr), V.VNil)
  {
  }

  lemma {:induction false} CallRefines(prog: seq<Proc>, fuel: nat, p: nat, h: Heap, fr: Frame, o: Outside,
          ts: seq<Temp>, vs: seq<V.Val>, args: seq<Arg>)
    requires WellFormed(prog) && Waiting(h, fr, o, ts, vs, args, Callee(prog, p))
    ensures CallMatches(h, fr, RunProc(prog, fuel, p, h, ts), V.RunProc(prog, fuel, p, vs), o)
    decreases fuel, 1, Skip
  {
    hide WellFormed, Disciplined, TempsOk, FullSims, SimAll, Handed, EntryFrame, V.EntryEnv, ProcEvents, Escapes,
         InFlight, Agree, CalleeOutside, Callee, Placed, Keeps, Exec, V.Exec, RunProc, V.RunProc, CallResult,
         V.CallResult, OutMatches, StmtEvents;
    WaitingLengths(h, fr, o, ts, vs, args, Callee(prog, p));
    CallRun(prog, fuel, p, h, ts, vs);
    if p < |prog| && |ts| == prog[p].nparams && fuel > 0 {
      var pr := prog[p];
      var o' := CalleeOutside(h, fr, o, pr);
      EntryOk(h, fr, o, prog, p, ts, vs, args, {pr.nparams} + {});
      CalleeEscapes(h, fr, o, pr);
      BodyPlaced(prog, pr, o');
      ExecRefines(prog, fuel - 1, pr, pr.body, pr.nparams, h, EntryFrame(pr, ts), V.EntryEnv(pr, vs), o', {});
      CallEnds(h, fr, o, pr, Exec(prog, fuel - 1, pr, pr.body, pr.nparams, h, EntryFrame(pr, ts)),
               V.Exec(prog, fuel - 1, pr, pr.body, V.EntryEnv(pr, vs)), {}, pr.nparams
                 + |StmtEvents(pr.ints, pr.body)|);
    }
  }

  lemma CalleeEscapes(h: Heap, fr: Frame, o: Outside, pr: Proc)
    ensures Escapes(pr.ints, pr.body) <= CalleeOutside(h, fr, o, pr).escaping
  {
  }

  lemma WaitingLengths(h: Heap, fr: Frame, o: Outside, ts: seq<Temp>, vs: seq<V.Val>, args: seq<Arg>,
          borrow: nat -> bool)
    requires Waiting(h, fr, o, ts, vs, args, borrow)
    ensures |ts| == |vs|
  {
  }

  lemma CallEnds(h: Heap, fr: Frame, o: Outside, pr: Proc, out: Out, pout: V.POut, K: set<nat>, q: nat)
    requires Disciplined(h, fr, o) && OutMatches(h, out, pout, CalleeOutside(h, fr, o, pr), ProcEvents(pr), K, q)
    ensures CallMatches(h, fr, CallResult(out), V.CallResult(pout), o)
  {
    hide ProcEvents, CalleeOutside, SimAll;
    match out
    case Ret(h', t) => ReturnOk(h, fr, o, pr, h', t, pout.v);
    case Norm(h', _) => NothingReturned(h, fr, o, pr, h'); ReturnOk(h, fr, o, pr, h', Temp(HNil, false), V.VNil);
    case Brk(h', _) => NothingReturned(h, fr, o, pr, h'); ReturnOk(h, fr, o, pr, h', Temp(HNil, false), V.VNil);
    case Cont(h', _) => NothingReturned(h, fr, o, pr, h'); ReturnOk(h, fr, o, pr, h', Temp(HNil, false), V.VNil);
    case Fail(_) =>
    case Timeout =>
  }

  // ── right-hand sides ──

  lemma CallRhsRefines(prog: seq<Proc>, fuel: nat, h: Heap, fr: Frame, env: V.Env, pr: Proc, o: Outside, K: set<nat>,
          q: nat, p: nat, args: seq<Arg>, target: int)
    requires WellFormed(prog) && Ready(h, fr, env, pr, o, K, q) && Site(pr, ArgsEvents(pr.ints, args, target), K, q)
    requires ArgsEscape(pr.ints, args) <= o.escaping && BorrowSafe(pr, args, q, Callee(prog, p))
    ensures RhsDone(h, EvalRhs(prog, fuel, pr, Call(p, args), target, q, h, fr),
      V.EvalRhs(prog, fuel, pr.ints, Call(p, args), env), o,
                    env, ProcEvents(pr), {q + |ArgsEvents(pr.ints, args, target)|} + K, target)
    decreases fuel, 2, Skip, 0
  {
    hide WellFormed, ProcEvents, Occurs, InLoops, WellDeclared, SimAll, ArgsEvents, EvalArgs, V.EvalArgs, TempsOk,
         FullSims, InFlight, Keeps, RunProc, V.RunProc, BorrowSafe, Callee;
    ArgsHere(h, fr, env, pr, o, K, q, args, Callee(prog, p), target);
    var r := EvalArgs(h, fr, pr, args, q, Callee(prog, p), []);
    if r.ArgsOk? {
      var vs := V.EvalArgs(env, pr.ints, args).value;
      assert [] + vs == vs;
      CallRefines(prog, fuel, p, r.h, r.fr, o, r.ts, vs, args);
      var c := RunProc(prog, fuel, p, r.h, r.ts);
      if c.Returned? {
        SlotsPaired(r.h, r.fr, o);
        SimCalled(r.h, c.h, r.fr, env, ProcEvents(pr), {q + |ArgsEvents(pr.ints, args, target)|} + K,
          TargetSet(target));
        KeepsJoin(h, r.h, c.h, o.kept);
      }
    }
  }

  lemma KeepsJoin(h: Heap, h1: Heap, h2: Heap, P: set<Addr>)
    requires Keeps(h, h1, P) && Keeps(h1, h2, P)
    ensures Keeps(h, h2, P)
  {
  }

  lemma RhsRefines(prog: seq<Proc>, fuel: nat, h: Heap, fr: Frame, env: V.Env, pr: Proc, o: Outside, K: set<nat>,
          q: nat, r: Rhs, target: int)
    requires WellFormed(prog) && Ready(h, fr, env, pr, o, K, q) && Site(pr, RhsEvents(pr.ints, r, target), K, q)
    requires RhsEscapes(pr.ints, r) <= o.escaping && (r.Append? ==> r.x != target)
    requires r.Call? ==> BorrowSafe(pr, r.args, q, Callee(prog, r.p))
    ensures RhsDone(h, EvalRhs(prog, fuel, pr, r, target, q, h, fr), V.EvalRhs(prog, fuel, pr.ints, r, env), o,
                    env, ProcEvents(pr), {q + |RhsEvents(pr.ints, r, target)|} + K, target)
    decreases fuel, 2, Skip, 1
  {
    hide WellFormed, ProcEvents, Ready, Site, EvalRhs, V.EvalRhs, RhsDone;
    match r
    case Plain(a) => PlainRefines(prog, fuel, h, fr, env, pr, o, K, q, a, target);
    case ListLit(es) => ListLitRefines(prog, fuel, h, fr, env, pr, o, K, q, es, target);
    case Append(y, e) => AppendRefines(prog, fuel, h, fr, env, pr, o, K, q, y, e, target);
    case StructLit(args) => StructLitRefines(prog, fuel, h, fr, env, pr, o, K, q, args, target);
    case Call(p, args) => CallRhsRefines(prog, fuel, h, fr, env, pr, o, K, q, p, args, target);
  }

  // ── statements ──

  lemma LetRefines(prog: seq<Proc>, fuel: nat, h: Heap, fr: Frame, env: V.Env, pr: Proc, o: Outside, K: set<nat>,
          p: nat, x: Slot, r: Rhs)
    requires WellFormed(prog) && Ready(h, fr, env, pr, o, K, p) && Site(pr, RhsEvents(pr.ints, r, -1) + [Decl(x)], K, p)
    requires RhsEscapes(pr.ints, r) <= o.escaping && (r.Call? ==> BorrowSafe(pr, r.args, p, Callee(prog, r.p)))
    ensures StmtMatches(h, BindOut(pr.ints, x, EvalRhs(prog, fuel, pr, r, -1, p, h, fr)),
                        V.BindOut(env, pr.ints, x, V.EvalRhs(prog, fuel, pr.ints, r, env)), o,
                        ProcEvents(pr), {p + |RhsEvents(pr.ints, r, -1)| + 1} + K)
    decreases fuel, 2, Skip, 2
  {
    hide WellFormed, ProcEvents, Occurs, InLoops, WellDeclared, SimAll, Disciplined, EvalRhs, V.EvalRhs, RhsEvents,
         RhsEscapes, BorrowSafe, Bind, V.Bind, Flight, Free, FullSim;
    var q := p + |RhsEvents(pr.ints, r, -1)|;
    SiteParts(pr, RhsEvents(pr.ints, r, -1), [Decl(x)], K, p);
    RhsRefines(prog, fuel, h, fr, env, pr, o, K, p, r, -1);
    var c := EvalRhs(prog, fuel, pr, r, -1, p, h, fr);
    if c.RhsOk? {
      SimDeclare(c.h, c.fr, env, ProcEvents(pr), K, q, x);
      BindRefines(c.h, c.fr, env, ProcEvents(pr), {q + 1} + K, pr.ints, o, x, c.t,
        V.EvalRhs(prog, fuel, pr.ints, r, env).v);
    }
  }

  lemma SetRefines(prog: seq<Proc>, fuel: nat, h: Heap, fr: Frame, env: V.Env, pr: Proc, o: Outside, K: set<nat>,
          p: nat, x: Slot, r: Rhs)
    requires WellFormed(prog) && Ready(h, fr, env, pr, o, K, p) && Site(pr, [Use(x)] + RhsEvents(pr.ints, r, x), K, p)
    requires RhsEscapes(pr.ints, r) <= o.escaping && (r.Call? ==> BorrowSafe(pr, r.args, p + 1, Callee(prog, r.p)))
    requires r.Append? ==> r.x != x
    ensures StmtMatches(h, BindOut(pr.ints, x, EvalRhs(prog, fuel, pr, r, x, p + 1, h, fr)),
                        V.BindOut(env, pr.ints, x, V.EvalRhs(prog, fuel, pr.ints, r, env)), o,
                        ProcEvents(pr), {p + 1 + |RhsEvents(pr.ints, r, x)|} + K)
    decreases fuel, 2, Skip, 2
  {
    hide WellFormed, ProcEvents, Occurs, InLoops, WellDeclared, SimAll, Disciplined, EvalRhs, V.EvalRhs, RhsEvents,
         RhsEscapes, BorrowSafe, Bind, V.Bind, Flight, Free, FullSim;
    SiteParts(pr, [Use(x)], RhsEvents(pr.ints, r, x), K, p);
    NothingDeclared(pr, p);
    WholeHere(h, fr, env, pr, o, K, p, p, x);
    SimLater(h, fr, env, ProcEvents(pr), p, p + 1, K, {});
    RhsRefines(prog, fuel, h, fr, env, pr, o, K, p + 1, r, x);
    var c := EvalRhs(prog, fuel, pr, r, x, p + 1, h, fr);
    if c.RhsOk? {
      BindRefines(c.h, c.fr, env, ProcEvents(pr), {p + 1 + |RhsEvents(pr.ints, r, x)|} + K, pr.ints, o, x, c.t,
                  V.EvalRhs(prog, fuel, pr.ints, r, env).v);
    }
  }

  /** Statements without a block. */
  lemma SimpleRefines(prog: seq<Proc>, fuel: nat, pr: Proc, s: Stmt, p: nat, h: Heap, fr: Frame, env: V.Env, o: Outside,
          K: set<nat>)
    requires Placed(prog, pr, s, p, o, K) && Ready(h, fr, env, pr, o, K, p)
    requires !s.Seq? && !s.If? && !s.Loop?
    ensures OutMatches(h, ExecSimple(prog, fuel, pr, s, p, h, fr), V.ExecSimple(prog, fuel, pr, s, env), o,
      ProcEvents(pr), K,
                       p + |StmtEvents(pr.ints, s)|)
    decreases fuel, 2, Skip, 3
  {
    hide WellFormed, ProcEvents, ProcLoops, Site, Disciplined, SimAll, EvalRhs, V.EvalRhs, RhsEvents, IntEvents,
         StoredEvents, ReturnEvents, BorrowSafe, ExecInt, V.ExecInt, BindOut, V.BindOut, ExecAppend, V.ExecAppend,
         ExecIndexSet, V.ExecIndexSet, ExecFieldSet, V.ExecFieldSet, ExecFieldAppend, V.ExecFieldAppend, ExecNestedSet,
         V.ExecNestedSet, ExecReturn, V.ExecReturn, ArgEscapes, RhsEscapes, Handed, Keeps;
    var ev := ProcEvents(pr);
    var q := p + |StmtEvents(pr.ints, s)|;
    var out, pout := ExecSimple(prog, fuel, pr, s, p, h, fr), V.ExecSimple(prog, fuel, pr, s, env);
    match s {
      case Skip => KeepsSelf(h, o.kept);
      case LetInt(x, e) => LetIntRefines(h, fr, env, pr, o, K, p, x, e); StmtOut(h, out, pout, o, ev, K, q);
      case SetInt(x, e) => SetIntRefines(h, fr, env, pr, o, K, p, x, e); StmtOut(h, out, pout, o, ev, K, q);
      case Let(x, r) => LetRefines(prog, fuel, h, fr, env, pr, o, K, p, x, r); StmtOut(h, out, pout, o, ev, K, q);
      case Set(x, r) =>
        if r.Append? && r.x == x {
          AppendSelfSite(pr, x, r.e);
          AppendSelfRefines(h, fr, env, pr, o, K, p, x, r.e);
        } else {
          SetRefines(prog, fuel, h, fr, env, pr, o, K, p, x, r);
        }
        StmtOut(h, out, pout, o, ev, K, q);
      case IndexSet(x, i, v) => IndexSetRefines(h, fr, env, pr, o, K, p, x, i, v); StmtOut(h, out, pout, o, ev, K, q);
      case FieldSet(x, f, a) => FieldSetRefines(h, fr, env, pr, o, K, p, x, f, a); StmtOut(h, out, pout, o, ev, K, q);
      case FieldAppend(x, f, e) => FieldAppendRefines(h, fr, env, pr, o, K, p, x, f, e);
        StmtOut(h, out, pout, o, ev, K, q);
      case NestedSet(x, f, w, i, v) => NestedSetRefines(h, fr, env, pr, o, K, p, x, f, w, i, v);
        StmtOut(h, out, pout, o, ev, K, q);
      case Break => KeepsSelf(h, o.kept); SimSubset(h, fr, env, ev, {p} + K, K);
      case Continue => KeepsSelf(h, o.kept); SimSubset(h, fr, env, ev, {p} + K, K);
      case Return(a) => ReturnRefines(h, fr, env, pr, o, K, p, a);
    }
  }

  lemma AppendSelfSite(pr: Proc, x: Slot, e: IntExpr)
    ensures RhsEvents(pr.ints, Append(x, e), x) == IntEvents(e) + [Use(x)] + IntEvents(e)
  {
  }

  // ── control flow ──

  lemma IfPlaced(prog: seq<Proc>, pr: Proc, c: Cond, s1: Stmt, s2: Stmt, p: nat, o: Outside, K: set<nat>)
    requires Placed(prog, pr, If(c, s1, s2), p, o, K)
    ensures var p1 := p + |CondEvents(c)|;
            var p2 := p1 + |StmtEvents(pr.ints, s1)|;
            && Occurs(ProcEvents(pr), p, CondEvents(c)) && WellDeclared(ProcEvents(pr))
            && Placed(prog, pr, s1, p1, o, K) && BlockScoped(ProcEvents(pr), p1, p2)
            && Placed(prog, pr, s2, p2, o, K) && BlockScoped(ProcEvents(pr), p2, p2 + |StmtEvents(pr.ints, s2)|)
            && |StmtEvents(pr.ints, If(c, s1, s2))|
              == |CondEvents(c)| + |StmtEvents(pr.ints, s1)| + |StmtEvents(pr.ints, s2)|
  {
    hide WellFormed, ProcEvents, ProcLoops, CondEvents, BorrowSafe, BlockScoped;
    SiteParts(pr, CondEvents(c) + StmtEvents(pr.ints, s1), StmtEvents(pr.ints, s2), K, p);
    SiteParts(pr, CondEvents(c), StmtEvents(pr.ints, s1), K, p);
  }

  lemma LoopPlaced(prog: seq<Proc>, pr: Proc, c: Cond, body: Stmt, p: nat, o: Outside, K: set<nat>)
    requires Placed(prog, pr, Loop(c, body), p, o, K)
    ensures var p1 := p + |CondEvents(c)|;
            && Occurs(ProcEvents(pr), p, CondEvents(c)) && WellDeclared(ProcEvents(pr))
            && Placed(prog, pr, body, p1, o, {p} + K)
              && BlockScoped(ProcEvents(pr), p1, p1 + |StmtEvents(pr.ints, body)|)
            && |StmtEvents(pr.ints, Loop(c, body))| == |CondEvents(c)| + |StmtEvents(pr.ints, body)|
  {
    hide WellFormed, ProcEvents, ProcLoops, CondEvents, BorrowSafe, BlockScoped;
    SiteParts(pr, CondEvents(c), StmtEvents(pr.ints, body), K, p);
    assert (p, p + |StmtEvents(pr.ints, Loop(c, body))|) in Loops(pr.ints, Loop(c, body), p);
  }

  lemma SeqPlaced(prog: seq<Proc>, pr: Proc, s1: Stmt, s2: Stmt, p: nat, o: Outside, K: set<nat>)
    requires Placed(prog, pr, Seq(s1, s2), p, o, K)
    ensures Placed(prog, pr, s1, p, o, K) && Placed(prog, pr, s2, p + |StmtEvents(pr.ints, s1)|, o, K)
    ensures |StmtEvents(pr.ints, Seq(s1, s2))| == |StmtEvents(pr.ints, s1)| + |StmtEvents(pr.ints, s2)|
  {
    hide WellFormed, ProcEvents, ProcLoops, BorrowSafe, BlockScoped;
    SiteParts(pr, StmtEvents(pr.ints, s1), StmtEvents(pr.ints, s2), K, p);
  }

  lemma {:induction false} ExecRefines(prog: seq<Proc>, fuel: nat, pr: Proc, s: Stmt, p: nat, h: Heap, fr: Frame,
          env: V.Env, o: Outside, K: set<nat>)
    requires Placed(prog, pr, s, p, o, K) && Ready(h, fr, env, pr, o, K, p)
    ensures OutMatches(h, Exec(prog, fuel, pr, s, p, h, fr), V.Exec(prog, fuel, pr, s, env), o, ProcEvents(pr), K,
                       p + |StmtEvents(pr.ints, s)|)
    decreases fuel, 3, s
  {
    hide Placed, ProcEvents, Ready, OutMatches, StmtEvents, ExecSimple, V.ExecSimple;
    match s {
      case Seq(s1, s2) => SeqRefines(prog, fuel, pr, s1, s2, p, h, fr, env, o, K);
      case If(c, s1, s2) => IfRefines(prog, fuel, pr, c, s1, s2, p, h, fr, env, o, K);
      case Loop(c, body) => LoopRefines(prog, fuel, pr, c, body, p, h, fr, env, o, K);
      case _ => SimpleRefines(prog, fuel, pr, s, p, h, fr, env, o, K);
    }
  }

  lemma {:induction false} SeqRefines(prog: seq<Proc>, fuel: nat, pr: Proc, s1: Stmt, s2: Stmt, p: nat, h: Heap,
          fr: Frame, env: V.Env, o: Outside, K: set<nat>)
    requires Placed(prog, pr, Seq(s1, s2), p, o, K) && Ready(h, fr, env, pr, o, K, p)
    ensures OutMatches(h, Exec(prog, fuel, pr, Seq(s1, s2), p, h, fr), V.Exec(prog, fuel, pr, Seq(s1, s2), env), o,
      ProcEvents(pr), K,
                       p + |StmtEvents(pr.ints, Seq(s1, s2))|)
    decreases fuel, 3, Seq(s1, s2), 0
  {
    hide Placed, ProcEvents, Disciplined, SimAll, StmtEvents, Keeps, Handed, Exec, V.Exec;
    SeqPlaced(prog, pr, s1, s2, p, o, K);
    SeqRun(prog, fuel, pr, s1, s2, p, h, fr, env);
    ExecRefines(prog, fuel, pr, s1, p, h, fr, env, o, K);
    var out1, pout1 := Exec(prog, fuel, pr, s1, p, h, fr), V.Exec(prog, fuel, pr, s1, env);
    if out1.Norm? {
      var p2 := p + |StmtEvents(pr.ints, s1)|;
      ExecRefines(prog, fuel, pr, s2, p2, out1.h, out1.fr, pout1.env, o, K);
      OutThrough(h, out1.h, Exec(prog, fuel, pr, s2, p2, out1.h, out1.fr), V.Exec(prog, fuel, pr, s2, pout1.env), o,
                 ProcEvents(pr), K, p + |StmtEvents(pr.ints, Seq(s1, s2))|);
    }
  }

  lemma {:induction false} IfRefines(prog: seq<Proc>, fuel: nat, pr: Proc, c: Cond, s1: Stmt, s2: Stmt, p: nat, h: Heap,
          fr: Frame, env: V.Env, o: Outside, K: set<nat>)
    requires Placed(prog, pr, If(c, s1, s2), p, o, K) && Ready(h, fr, env, pr, o, K, p)
    ensures OutMatches(h, Exec(prog, fuel, pr, If(c, s1, s2), p, h, fr), V.Exec(prog, fuel, pr, If(c, s1, s2), env),
      o, ProcEvents(pr), K,
                       p + |StmtEvents(pr.ints, If(c, s1, s2))|)
    decreases fuel, 3, If(c, s1, s2), 0
  {
    hide Placed, ProcEvents, Disciplined, SimAll, StmtEvents, CondEvents, Keeps, Handed, EvalCond, V.EvalCond, Occurs,
         WellDeclared, BlockScoped, NoDecl, ExecSimple, V.ExecSimple;
    var ev := ProcEvents(pr);
    var p1 := p + |CondEvents(c)|;
    var p2 := p1 + |StmtEvents(pr.ints, s1)|;
    var p3 := p2 + |StmtEvents(pr.ints, s2)|;
    IfPlaced(prog, pr, c, s1, s2, p, o, K);
    EvalCondSame(h, fr, env, ev, {p} + K, {}, p, c);
    SimLater(h, fr, env, ev, p, p1, K, {});
    if EvalCond(h, fr, c).Ok? {
      if EvalCond(h, fr, c).value {
        ExecRefines(prog, fuel, pr, s1, p1, h, fr, env, o, K);
        var out := Exec(prog, fuel, pr, s1, p1, h, fr);
        if out.Norm? { SimSkip(out.h, out.fr, V.Exec(prog, fuel, pr, s1, env).env, ev, K, p2, p3); }
      } else {
        SimSkip(h, fr, env, ev, K, p1, p2);
        ExecRefines(prog, fuel, pr, s2, p2, h, fr, env, o, K);
      }
    }
  }

  /** Leaving a loop: what its body declared is gone, the rest is as fit as when it started. */
  lemma LoopExit(h: Heap, fr: Frame, env: V.Env, ev: Events, K: set<nat>, p: nat, p1: nat, q: nat)
    requires SimAll(h, fr, env, ev, {p} + K, {}) && p <= p1 <= q && NoDecl(ev, p, p1) && BlockScoped(ev, p1, q)
    ensures SimAll(h, fr, env, ev, {q} + K, {})
  {
    SimLater(h, fr, env, ev, p, p1, K, {});
    SimSkip(h, fr, env, ev, K, p1, q);
  }

  lemma {:induction false} LoopRefines(prog: seq<Proc>, fuel: nat, pr: Proc, c: Cond, body: Stmt, p: nat, h: Heap,
          fr: Frame, env: V.Env, o: Outside, K: set<nat>)
    requires Placed(prog, pr, Loop(c, body), p, o, K) && Ready(h, fr, env, pr, o, K, p)
    ensures OutMatches(h, Exec(prog, fuel, pr, Loop(c, body), p, h, fr), V.Exec(prog, fuel, pr, Loop(c, body), env),
      o, ProcEvents(pr), K,
                       p + |StmtEvents(pr.ints, Loop(c, body))|)
    decreases fuel, 3, Loop(c, body), 0
  {
    hide Placed, ProcEvents, Disciplined, SimAll, StmtEvents, CondEvents, Keeps, Handed, EvalCond, V.EvalCond, Occurs,
         WellDeclared, BlockScoped, NoDecl, Exec, V.Exec;
    LoopRun(prog, fuel, pr, c, body, p, h, fr);
    LoopRunPure(prog, fuel, pr, c, body, env);
    var ev := ProcEvents(pr);
    var s := Loop(c, body);
    var p1 := p + |CondEvents(c)|;
    var q := p1 + |StmtEvents(pr.ints, body)|;
    var K1 := {p} + K;
    LoopPlaced(prog, pr, c, body, p, o, K);
    EvalCondSame(h, fr, env, ev, K1, {}, p, c);
    LoopExit(h, fr, env, ev, K, p, p1, q);
    KeepsSelf(h, o.kept);
    if EvalCond(h, fr, c) == Ok(true) && fuel > 0 {
      assert {p} + K1 == K1;
      SimLater(h, fr, env, ev, p, p1, K1, {});
      ExecRefines(prog, fuel - 1, pr, body, p1, h, fr, env, o, K1);
      var out, pout := Exec(prog, fuel - 1, pr, body, p1, h, fr), V.Exec(prog, fuel - 1, pr, body, env);
      if out.Norm? || out.Cont? {
        SimSubset(out.h, out.fr, pout.env, ev, if out.Norm? then {q} + K1 else K1, K1);
        LoopRefines(prog, fuel - 1, pr, c, body, p, out.h, out.fr, pout.env, o, K);
        OutThrough(h, out.h, Exec(prog, fuel - 1, pr, s, p, out.h, out.fr), V.Exec(prog, fuel - 1, pr, s, pout.env), o,
                   ev, K, p + |StmtEvents(pr.ints, s)|);
      } else if out.Brk? {
        LoopExit(out.h, out.fr, pout.env, ev, K, p, p1, q);
      }
    }
  }

  // ── whole runs ──

  /** Running any proc of any well-formed program on any values: the engine gives the language's
    * result or fails for the same reason, after the same number of steps, and leaves every
    * value the caller already had as it was. */
  lemma RunRefines(prog: seq<Proc>, fuel: nat, p: nat, h: Heap, ts: seq<Temp>, vs: seq<V.Val>)
    requires WellFormed(prog) && HeapOk(h) && FullSims(h, ts, vs)
    requires forall t <- ts :: ValOk(h, t.v) && !t.owned
    ensures match RunProc(prog, fuel, p, h, ts)
            case Returned(h', t) =>
              && V.RunProc(prog, fuel, p, vs).Returned?
              && FullSim(h', t.v, V.RunProc(prog, fuel, p, vs).v)
              && |h| <= |h'| && h'[..|h|] == h
            case Failed(f) => V.RunProc(prog, fuel, p, vs) == V.Failed(f)
            case OutOfFuel => V.RunProc(prog, fuel, p, vs) == V.OutOfFuel
  {
    hide WellFormed, FullSim;
    var fr := Frame([], []);
    var all := set a: Addr | 0 <= a < |h| && ValOk(h, HRef(a));
    var o := Outside(all, {}, {});
    var args := seq(|ts|, i => ArgInt(Lit(0)));
    assert Disciplined(h, fr, o);
    assert TempsOk(h, fr, o, ts, args, Callee(prog, p)) by {
      forall k: nat | k < |ts| ensures ValOk(h, ts[k].v) && !ts[k].owned { assert ts[k] in ts; }
    }
    CallRefines(prog, fuel, p, h, fr, o, ts, vs, args);
    var r := RunProc(prog, fuel, p, h, ts);
    if r.Returned? {
      forall a | 0 <= a < |h| ensures r.h[a] == h[a] { assert a in all; }
    }
  }
}
