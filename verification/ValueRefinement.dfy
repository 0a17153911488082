/** Right-hand sides and returns, apart from the call itself. */
module ValueRefinement {
  import opened ProcSyntax
  import V = ValueMachine
  import opened MoveAnalysis
  import opened OwnershipMachine
  import opened Ownership
  import opened OwnershipUpdates
  import opened Simulation
  import opened Arguments
  import opened ArgumentRefinement
  import opened RhsRefinement
  import opened WriteRefinement
  import opened StatementRefinement
  import opened FieldRefinement

  /** A right-hand side's outcome, with every slot but the target fit for what follows. */
  ghost predicate RhsDone(h: Heap, r: RhsOut, c: V.CallOut, o: Outside, env: V.Env, ev: Events, R: set<nat>,
          target: int) {
    RhsMatches(h, r, c, o) && (r.RhsOk? ==> SimAll(r.h, r.fr, env, ev, R, TargetSet(target)))
  }

  lemma SimTarget(h: Heap, fr: Frame, env: V.Env, ev: Events, R: set<nat>, target: int)
    requires SimAll(h, fr, env, ev, R, {})
    ensures SimAll(h, fr, env, ev, R, TargetSet(target))
  {
  }

  lemma PlainReads(pr: Proc, a: Arg, target: int, K: set<nat>, q: nat)
    requires Site(pr, RhsEvents(pr.ints, Plain(a), target), K, q)
    ensures |RhsEvents(pr.ints, Plain(a), target)| == ArgLen(a) && ReadsArg(ProcEvents(pr), q, a)
    ensures q + ArgLen(a) <= |ProcEvents(pr)|
    ensures target < 0 || a.ArgInt? || (q < |ProcEvents(pr)| && (ProcEvents(pr)[q].Use? || ProcEvents(pr)[q].Path?))
  {
    hide ProcEvents;
    if !a.ArgInt? { OccursAt(ProcEvents(pr), q, RhsEvents(pr.ints, Plain(a), target), 0); }
  }

  lemma PlainRefines(prog: seq<Proc>, fuel: nat, h: Heap, fr: Frame, env: V.Env, pr: Proc, o: Outside, K: set<nat>,
          q: nat, a: Arg, target: int)
    requires Ready(h, fr, env, pr, o, K, q) && ArgEscapes(pr.ints, a) <= o.escaping
    requires Site(pr, RhsEvents(pr.ints, Plain(a), target), K, q)
    ensures RhsDone(h, EvalRhs(prog, fuel, pr, Plain(a), target, q, h, fr),
      V.EvalRhs(prog, fuel, pr.ints, Plain(a), env), o,
                    env, ProcEvents(pr), {q + |RhsEvents(pr.ints, Plain(a), target)|} + K, target)
  {
    hide ProcEvents, Moves, Occurs, InLoops, WellDeclared, SimAll, Disciplined, EvalArg, V.EvalArg, RhsEvents, ReadsArg,
         ArgEscapes, Flight, Free;
    var m := target < 0 && Moves(pr, q);
    PlainReads(pr, a, target, K, q);
    MoveIgnored(h, fr, pr, a, q, m);
    ValueRefines(h, fr, env, pr, o, K, q, a);
    var r := EvalArg(h, fr, pr.ints, a, m, false);
    if r.ArgOk? { SimTarget(r.h, r.fr, env, ProcEvents(pr), {q + ArgLen(a)} + K, target); }
  }

  lemma ListLitRefines(prog: seq<Proc>, fuel: nat, h: Heap, fr: Frame, env: V.Env, pr: Proc, o: Outside, K: set<nat>,
          q: nat, es: seq<IntExpr>, target: int)
    requires Ready(h, fr, env, pr, o, K, q) && Site(pr, IntsEvents(es), K, q)
    ensures RhsDone(h, EvalRhs(prog, fuel, pr, ListLit(es), target, q, h, fr),
      V.EvalRhs(prog, fuel, pr.ints, ListLit(es), env), o,
                    env, ProcEvents(pr), {q + |IntsEvents(es)|} + K, target)
  {
    hide ProcEvents, InLoops, SimAll, IntsEvents, EvalInts, V.EvalInts, Flight, Free;
    var ev := ProcEvents(pr);
    NothingDeclared(pr, q);
    NothingAvoided(ev, q, q + |IntsEvents(es)|);
    EvalIntsSame(h, fr, env, ev, {q} + K, {}, q, q, es);
    if EvalInts(h, fr, es).Ok? {
      var ns := EvalInts(h, fr, es).value;
      var (h1, v) := NewList(h, ns);
      NewListRefines(h, fr, o, ns);
      var cs: Heap :| h1 == h + cs;
      SimLater(h, fr, env, ev, q, q + |IntsEvents(es)|, K, {});
      SlotsPaired(h, fr, o);
      SimExtend(h, fr, env, ev, {q + |IntsEvents(es)|} + K, {}, cs);
      SimTarget(h1, fr, env, ev, {q + |IntsEvents(es)|} + K, target);
    }
  }

  lemma NothingAvoided(ev: Events, lo: nat, hi: nat)
    ensures Avoids(ev, lo, hi, {})
  {
  }

  // ── append ──

  function AppendEvent(ints: seq<bool>, y: Slot): Event {
    if IsInt(ints, y) then Use(y) else MoveUse(y)
  }

  lemma AppendRead(h: Heap, fr: Frame, env: V.Env, pr: Proc, o: Outside, K: set<nat>, q: nat, y: Slot, e: IntExpr)
    requires Ready(h, fr, env, pr, o, K, q) && Site(pr, [AppendEvent(pr.ints, y)] + IntEvents(e), K, q)
    ensures FullSim(h, Get(fr, y), V.Get(env, y))
    ensures EvalInt(h, fr, e) == V.EvalInt(env, e)
    ensures NoDecl(ProcEvents(pr), q, q + 1) && NoDecl(ProcEvents(pr), q + 1, q + 1 + |IntEvents(e)|)
    ensures Moves(pr, q) && !IsInt(pr.ints, y) ==> forall r <- {q + 1} + K :: !LiveAt(ProcEvents(pr), y, r)
  {
    hide ProcEvents, InLoops, Decide, SimAll, Disciplined, IntEvents;
    var ev := ProcEvents(pr);
    SiteParts(pr, [AppendEvent(pr.ints, y)], IntEvents(e), K, q);
    OccursAt(ev, q, [AppendEvent(pr.ints, y)], 0);
    NothingDeclared(pr, q);
    Readable(h, fr, env, ev, {q} + K, {}, q, q);
    IntHere(h, fr, env, pr, o, K, q, q + 1, e);
    IntEventsRead(e);
    ReadsNoDecl(ev, q + 1, IntEvents(e));
    if Moves(pr, q) && !IsInt(pr.ints, y) {
      forall r | r in {q + 1} + K ensures !LiveAt(ev, y, r) {
        LocalMoveDead(pr, K, q, q + 1, q, r);
      }
    }
  }

  /** The list's only holder, dead after this, is grown in place and handed over. */
  lemma AppendMovedRefines(h: Heap, fr: Frame, env: V.Env, pr: Proc, o: Outside, K: set<nat>, q: nat, q': nat, y: Slot,
          n: int)
    requires Ready(h, fr, env, pr, o, K, q) && FullSim(h, Get(fr, y), V.Get(env, y))
    requires IsList(h, Get(fr, y)) && Owned(fr, y)
    requires NoDecl(ProcEvents(pr), q, q + 1) && q + 1 <= q' && NoDecl(ProcEvents(pr), q + 1, q')
    requires forall r <- {q + 1} + K :: !LiveAt(ProcEvents(pr), y, r)
    ensures var (h', v') := Grow(h, Get(fr, y), n);
            var fr' := Put(fr, y, Temp(HNil, false));
            && InFlight(h', fr', o, Temp(v', true), V.AppendTo(V.Get(env, y), n)) && Keeps(h, h', o.kept)
            && SimAll(h', fr', env, ProcEvents(pr), {q'} + K, {})
  {
    hide ProcEvents, SimAll, NoDecl, LiveAt;
    var (h', v') := Grow(h, Get(fr, y), n);
    var fr' := Put(fr, y, Temp(HNil, false));
    GrowMoved(h, fr, o, y, n);
    NotLiveFit(h', Get(fr', y), V.Get(env, y), ProcEvents(pr), y, {q + 1} + K);
    SimUpdate(h, fr, env, ProcEvents(pr), K, {}, q, h', fr', env, y, q + 1);
    SimLater(h', fr', env, ProcEvents(pr), q + 1, q', K, {});
  }

  lemma AppendCopiedRefines(h: Heap, fr: Frame, env: V.Env, pr: Proc, o: Outside, K: set<nat>, q: nat, q': nat, y: Slot,
          n: int)
    requires Ready(h, fr, env, pr, o, K, q) && FullSim(h, Get(fr, y), V.Get(env, y))
    requires q <= q' && NoDecl(ProcEvents(pr), q, q')
    ensures var (h', v') := AppendCopy(h, Get(fr, y), n);
            && InFlight(h', fr, o, Temp(v', true), V.AppendTo(V.Get(env, y), n)) && Keeps(h, h', o.kept)
            && SimAll(h', fr, env, ProcEvents(pr), {q'} + K, {})
  {
    hide ProcEvents, SimAll, NoDecl;
    AppendCopyRefines(h, fr, o, Get(fr, y), V.Get(env, y), n);
    SlotsPaired(h, fr, o);
    SimLater(h, fr, env, ProcEvents(pr), q, q', K, {});
    SimExtend(h, fr, env, ProcEvents(pr), {q'} + K, {}, [ListCell(ListOf(h, Get(fr, y)) + [n])]);
  }

  lemma AppendRefines(prog: seq<Proc>, fuel: nat, h: Heap, fr: Frame, env: V.Env, pr: Proc, o: Outside, K: set<nat>,
          q: nat, y: Slot, e: IntExpr, target: int)
    requires Ready(h, fr, env, pr, o, K, q) && y != target && Site(pr, RhsEvents(pr.ints, Append(y, e), target), K, q)
    ensures RhsDone(h, EvalRhs(prog, fuel, pr, Append(y, e), target, q, h, fr),
      V.EvalRhs(prog, fuel, pr.ints, Append(y, e), env), o,
                    env, ProcEvents(pr), {q + |RhsEvents(pr.ints, Append(y, e), target)|} + K, target)
  {
    hide ProcEvents, Moves, Occurs, InLoops, WellDeclared, SimAll, Disciplined, EvalInt, V.EvalInt, IntEvents, NoDecl,
         Flight, Free, LiveAt, Grow, AppendCopy, V.AppendTo, FullSim, Keeps;
    var q' := q + 1 + |IntEvents(e)|;
    var ev := ProcEvents(pr);
    AppendRead(h, fr, env, pr, o, K, q, y, e);
    NoDeclJoin(ev, q, q + 1, q');
    if EvalInt(h, fr, e).Ok? {
      var n := EvalInt(h, fr, e).value;
      var v := Get(fr, y);
      if IsList(h, v) && !IsInt(pr.ints, y) && Moves(pr, q) && Owned(fr, y) {
        AppendMovedRefines(h, fr, env, pr, o, K, q, q', y, n);
        var (h1, v1) := Grow(h, v, n);
        SimTarget(h1, Put(fr, y, Temp(HNil, false)), env, ev, {q'} + K, target);
      } else {
        AppendCopiedRefines(h, fr, env, pr, o, K, q, q', y, n);
        var (h1, v1) := AppendCopy(h, v, n);
        SimTarget(h1, fr, env, ev, {q'} + K, target);
      }
    }
  }

  // ── struct literals ──

  lemma ArgsHere(h: Heap, fr: Frame, env: V.Env, pr: Proc, o: Outside, K: set<nat>, q: nat, args: seq<Arg>,
          borrow: nat -> bool, target: int)
    requires Ready(h, fr, env, pr, o, K, q) && Site(pr, ArgsEvents(pr.ints, args, target), K, q)
    requires ArgsEscape(pr.ints, args) <= o.escaping && BorrowSafe(pr, args, q, borrow)
    ensures var r := EvalArgs(h, fr, pr, args, q, borrow, []);
            && ArgsMatch(h, r, V.EvalArgs(env, pr.ints, args), o, [], args, borrow)
            && (r.ArgsOk? ==> SimAll(r.h, r.fr, env, ProcEvents(pr), {q + |ArgsEvents(pr.ints, args, target)|} + K,
                              TargetSet(target)))
  {
    hide ProcEvents, Occurs, InLoops, WellDeclared, SimAll, Disciplined, ArgsEvents, BorrowSafe, EvalArgs, V.EvalArgs;
    assert args[0..] == args;
    NothingWaiting(h, fr, o, args, borrow);
    NothingAvoided(ProcEvents(pr), q, q + |ArgsEvents(pr.ints, args, target)|);
    assert ArgPos(args, q, 0) == q;
    ArgsRefine(h, fr, env, pr, o, args, borrow, [], [], K, {}, q, q, target);
  }

  lemma StructLitRefines(prog: seq<Proc>, fuel: nat, h: Heap, fr: Frame, env: V.Env, pr: Proc, o: Outside, K: set<nat>,
          q: nat, args: seq<Arg>, target: int)
    requires Ready(h, fr, env, pr, o, K, q) && Site(pr, ArgsEvents(pr.ints, args, -1), K, q)
    requires ArgsEscape(pr.ints, args) <= o.escaping
    ensures RhsDone(h, EvalRhs(prog, fuel, pr, StructLit(args), target, q, h, fr),
      V.EvalRhs(prog, fuel, pr.ints, StructLit(args), env), o,
                    env, ProcEvents(pr), {q + |ArgsEvents(pr.ints, args, -1)|} + K, target)
  {
    hide ProcEvents, Occurs, InLoops, WellDeclared, SimAll, ArgsEvents, EvalArgs, V.EvalArgs, TempsOk, FullSims, Flight,
         Free;
    assert BorrowSafe(pr, args, q, NeverBorrows);
    ArgsHere(h, fr, env, pr, o, K, q, args, NeverBorrows, -1);
    var r := EvalArgs(h, fr, pr, args, q, NeverBorrows, []);
    if r.ArgsOk? {
      var vs := V.EvalArgs(env, pr.ints, args).value;
      assert [] + vs == vs;
      StructRefines(r.h, r.fr, o, r.ts, vs, args);
      SlotsPaired(r.h, r.fr, o);
      SimExtend(r.h, r.fr, env, ProcEvents(pr), {q + |ArgsEvents(pr.ints, args, -1)|} + K, {}, [StructOf(r.ts)]);
      SimTarget(r.h + [StructOf(r.ts)], r.fr, env, ProcEvents(pr), {q + |ArgsEvents(pr.ints, args, -1)|} + K, target);
    }
  }

  // ── return ──

  /** A returned value: nothing outside holds what it owns, and it holds nothing lent. */
  ghost predicate Handed(h: Heap, t: Temp, o: Outside, v: V.Val) {
    && HeapOk(h) && ValOk(h, t.v) && FullSim(h, t.v, v) && Free(h, t.v, o.lent)
    && (t.owned ==> FieldsUnique(h, t.v) && forall b: Addr :: Owns(h, t.v, b) ==> b !in o.kept)
  }

  ghost predicate ReturnMatches(h: Heap, out: Out, pout: V.POut, o: Outside) {
    match out
    case Ret(h', t) => pout.PRet? && Handed(h', t, o, pout.v) && Keeps(h, h', o.kept)
    case Fail(f) => pout == V.PFail(f)
    case _ => false
  }

  lemma ReturnReads(pr: Proc, a: Arg, K: set<nat>, q: nat)
    requires Site(pr, ReturnEvents(a), K, q)
    ensures |ReturnEvents(a)| == ArgLen(a) && ReadsArg(ProcEvents(pr), q, a) && q + ArgLen(a) <= |ProcEvents(pr)|
    ensures a.ArgLocal? ==> Site(pr, [Use(a.x)], K, q)
  {
    hide ProcEvents;
    if !a.ArgInt? { OccursAt(ProcEvents(pr), q, ReturnEvents(a), 0); }
  }

  lemma ReturnLocal(h: Heap, fr: Frame, o: Outside, x: Slot, v: V.Val)
    requires Disciplined(h, fr, o) && x in o.escaping && FullSim(h, Get(fr, x), v)
    ensures Handed(h, Temp(Get(fr, x), Owned(fr, x)), o, v) && Keeps(h, h, o.kept)
  {
    assert Owned(fr, x) ==> Exclusive(h, fr, o.kept, x);
    assert Free(h, Get(fr, x), o.lent);
  }

  lemma ReturnRefines(h: Heap, fr: Frame, env: V.Env, pr: Proc, o: Outside, K: set<nat>, q: nat, a: Arg)
    requires Ready(h, fr, env, pr, o, K, q) && Site(pr, ReturnEvents(a), K, q) && ArgEscapes(pr.ints, a) <= o.escaping
    ensures ReturnMatches(h, ExecReturn(h, fr, pr, a, q), V.ExecReturn(env, pr.ints, a), o)
  {
    hide ProcEvents, Moves, Occurs, InLoops, WellDeclared, SimAll, IntEvents, EvalInt, V.EvalInt, ReadsArg;
    ReturnReads(pr, a, K, q);
    NothingDeclared(pr, q);
    if a.ArgLocal? {
      WholeHere(h, fr, env, pr, o, K, q, q, a.x);
      KeepsSelf(h, o.kept);
      if IsInt(pr.ints, a.x) {
        PlainFlight(h, fr, o, Temp(HInt(AsInt(Get(fr, a.x))), false));
      } else {
        ReturnLocal(h, fr, o, a.x, V.Get(env, a.x));
      }
    } else {
      ValueRefines(h, fr, env, pr, o, K, q, a);
    }
  }
}
