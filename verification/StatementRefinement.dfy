/** Statements that make no call: each keeps the discipline and does what the language says. */
module StatementRefinement {
  import opened ProcSyntax
  import V = ValueMachine
  import opened MoveAnalysis
  import opened OwnershipMachine
  import opened Ownership
  import opened OwnershipUpdates
  import opened Simulation
  import opened Arguments
  import opened ArgumentRefinement
  import opened RhsRefinement
  import opened WriteRefinement

  /** Syntax with occurrences es is compiled at position p of pr, inside the loops starting at K. */
  ghost predicate Site(pr: Proc, es: Events, K: set<nat>, p: nat) {
    WellDeclared(ProcEvents(pr)) && Occurs(ProcEvents(pr), p, es) && InLoops(pr, K, p, p + |es|)
  }

  lemma SiteParts(pr: Proc, es1: Events, es2: Events, K: set<nat>, p: nat)
    requires Site(pr, es1 + es2, K, p)
    ensures Site(pr, es1, K, p) && Site(pr, es2, K, p + |es1|)
  {
    OccursParts(ProcEvents(pr), p, es1, es2);
  }

  /** The state a statement starts from. */
  ghost predicate Ready(h: Heap, fr: Frame, env: V.Env, pr: Proc, o: Outside, K: set<nat>, p: nat) {
    Disciplined(h, fr, o) && SimAll(h, fr, env, ProcEvents(pr), {p} + K, {})
  }

  /** An int expression at position q, nothing having been declared since p. */
  lemma IntHere(h: Heap, fr: Frame, env: V.Env, pr: Proc, o: Outside, K: set<nat>, p: nat, q: nat, e: IntExpr)
    requires Ready(h, fr, env, pr, o, K, p) && p <= q && NoDecl(ProcEvents(pr), p, q)
    requires Site(pr, IntEvents(e), K, q)
    ensures EvalInt(h, fr, e) == V.EvalInt(env, e)
    ensures NoDecl(ProcEvents(pr), p, q + |IntEvents(e)|)
  {
    hide ProcEvents;
    EvalIntSame(h, fr, env, ProcEvents(pr), {p} + K, {}, p, q, e);
    IntEventsRead(e);
    ReadsNoDecl(ProcEvents(pr), q, IntEvents(e));
    NoDeclJoin(ProcEvents(pr), p, q, q + |IntEvents(e)|);
  }

  /** A whole read of x at position q: its value is all there. */
  lemma WholeHere(h: Heap, fr: Frame, env: V.Env, pr: Proc, o: Outside, K: set<nat>, p: nat, q: nat, x: Slot)
    requires Ready(h, fr, env, pr, o, K, p) && p <= q && NoDecl(ProcEvents(pr), p, q)
    requires Site(pr, [Use(x)], K, q)
    ensures FullSim(h, Get(fr, x), V.Get(env, x))
    ensures NoDecl(ProcEvents(pr), p, q + 1)
  {
    hide ProcEvents;
    OccursAt(ProcEvents(pr), q, [Use(x)], 0);
    Readable(h, fr, env, ProcEvents(pr), {p} + K, {}, p, q);
  }

  lemma NothingDeclared(pr: Proc, p: nat)
    ensures NoDecl(ProcEvents(pr), p, p)
  {
  }

  // ── ints ──

  /** An int is bound: the slot holds it, and owns nothing. */
  lemma BindIntRefines(h: Heap, fr: Frame, env: V.Env, ev: Events, R: set<nat>, o: Outside, x: Slot, n: int)
    requires Disciplined(h, fr, o) && SimAll(h, fr, env, ev, R, {x})
    ensures var fr' := Put(fr, x, Temp(HInt(n), false));
            var env' := if x < |env| then env[x := V.VInt(n)] else env;
            Disciplined(h, fr', o) && SimAll(h, fr', env', ev, R, {})
  {
    PlainFlight(h, fr, o, Temp(HInt(n), false));
    BindOk(h, fr, x, Temp(HInt(n), false), o);
    BindSim(h, fr, env, ev, R, x, Temp(HInt(n), false), V.VInt(n));
  }

  /** Slot x is rebound; it was the only slot not fit. */
  lemma BindSim(h: Heap, fr: Frame, env: V.Env, ev: Events, R: set<nat>, x: Slot, t: Temp, pv: V.Val)
    requires |fr.slots| == |fr.own| && SimAll(h, fr, env, ev, R, {x}) && FullSim(h, t.v, pv)
    ensures SimAll(h, Put(fr, x, t), if x < |env| then env[x := pv] else env, ev, R, {})
  {
    var fr' := Put(fr, x, t);
    var env' := if x < |env| then env[x := pv] else env;
    forall y: Slot
      ensures Fit(h, Get(fr', y), V.Get(env', y), ev, y, R)
    {
      if y == x {
        FullFit(h, Get(fr', x), V.Get(env', x), ev, x, R);
      } else {
        assert Get(fr', y) == Get(fr, y) && V.Get(env', y) == V.Get(env, y);
      }
    }
  }

  lemma SimDrop(h: Heap, fr: Frame, env: V.Env, ev: Events, R: set<nat>, x: Slot)
    requires SimAll(h, fr, env, ev, R, {})
    ensures SimAll(h, fr, env, ev, R, {x})
  {
  }

  /** Past the declaration of x, every other slot is as fit as before. */
  lemma SimDeclare(h: Heap, fr: Frame, env: V.Env, ev: Events, K: set<nat>, q: nat, x: Slot)
    requires SimAll(h, fr, env, ev, {q} + K, {}) && Occurs(ev, q, [Decl(x)])
    ensures SimAll(h, fr, env, ev, {q + 1} + K, {x})
  {
    OccursAt(ev, q, [Decl(x)], 0);
    forall y: Slot | y != x
      ensures Fit(h, Get(fr, y), V.Get(env, y), ev, y, {q + 1} + K)
    {
      assert Fit(h, Get(fr, y), V.Get(env, y), ev, y, {q} + K);
      assert Good(h, Get(fr, y), V.Get(env, y), ev, y, q);
      GoodLater(h, Get(fr, y), V.Get(env, y), ev, y, q, q + 1);
    }
  }

  lemma LetIntRefines(h: Heap, fr: Frame, env: V.Env, pr: Proc, o: Outside, K: set<nat>, p: nat, x: Slot, e: IntExpr)
    requires Ready(h, fr, env, pr, o, K, p) && Site(pr, IntEvents(e) + [Decl(x)], K, p)
    ensures var q := p + |IntEvents(e)| + 1;
            StmtMatches(h, ExecInt(h, fr, x, e), V.ExecInt(env, x, e), o, ProcEvents(pr), {q} + K)
  {
    hide ProcEvents, Occurs, InLoops, WellDeclared, NoDecl, SimAll, Disciplined, EvalInt, V.EvalInt, IntEvents;
    var ev := ProcEvents(pr);
    var q := p + |IntEvents(e)|;
    SiteParts(pr, IntEvents(e), [Decl(x)], K, p);
    NothingDeclared(pr, p);
    IntHere(h, fr, env, pr, o, K, p, p, e);
    if EvalInt(h, fr, e).Ok? {
      SimLater(h, fr, env, ev, p, q, K, {});
      SimDeclare(h, fr, env, ev, K, q, x);
      BindIntRefines(h, fr, env, ev, {q + 1} + K, o, x, EvalInt(h, fr, e).value);
    }
  }

  lemma SetIntRefines(h: Heap, fr: Frame, env: V.Env, pr: Proc, o: Outside, K: set<nat>, p: nat, x: Slot, e: IntExpr)
    requires Ready(h, fr, env, pr, o, K, p) && Site(pr, [Use(x)] + IntEvents(e), K, p)
    ensures var q := p + 1 + |IntEvents(e)|;
            StmtMatches(h, ExecInt(h, fr, x, e), V.ExecInt(env, x, e), o, ProcEvents(pr), {q} + K)
  {
    hide ProcEvents, Occurs, InLoops, WellDeclared, NoDecl, SimAll, Disciplined, EvalInt, V.EvalInt, IntEvents;
    var ev := ProcEvents(pr);
    var q := p + 1 + |IntEvents(e)|;
    SiteParts(pr, [Use(x)], IntEvents(e), K, p);
    NothingDeclared(pr, p);
    WholeHere(h, fr, env, pr, o, K, p, p, x);
    IntHere(h, fr, env, pr, o, K, p, p + 1, e);
    if EvalInt(h, fr, e).Ok? {
      SimLater(h, fr, env, ev, p, q, K, {});
      SimDrop(h, fr, env, ev, {q} + K, x);
      BindIntRefines(h, fr, env, ev, {q} + K, o, x, EvalInt(h, fr, e).value);
    }
  }

  // ── index writes ──

  lemma IndexSetRefines(h: Heap, fr: Frame, env: V.Env, pr: Proc, o: Outside, K: set<nat>, p: nat, x: Slot, i: IntExpr,
          v: IntExpr)
    requires Ready(h, fr, env, pr, o, K, p)
    requires Site(pr, [Use(x)] + IntEvents(i) + IntEvents(v), K, p)
    ensures var q := p + 1 + |IntEvents(i)| + |IntEvents(v)|;
            StmtMatches(h, ExecIndexSet(h, fr, x, i, v), V.ExecIndexSet(env, x, i, v), o, ProcEvents(pr), {q} + K)
  {
    hide ProcEvents, Occurs, InLoops, WellDeclared, NoDecl, SimAll, Disciplined, EvalInt, V.EvalInt, IntEvents, Mutable,
         Keeps;
    var ev := ProcEvents(pr);
    var q1 := p + 1 + |IntEvents(i)|;
    var q := q1 + |IntEvents(v)|;
    SiteParts(pr, [Use(x)] + IntEvents(i), IntEvents(v), K, p);
    SiteParts(pr, [Use(x)], IntEvents(i), K, p);
    NothingDeclared(pr, p);
    WholeHere(h, fr, env, pr, o, K, p, p, x);
    IntHere(h, fr, env, pr, o, K, p, p + 1, i);
    IntHere(h, fr, env, pr, o, K, p, q1, v);
    SimLater(h, fr, env, ev, p, q, K, {});
    if EvalInt(h, fr, i).Ok? && EvalInt(h, fr, v).Ok? && IsList(h, Get(fr, x)) {
      var k := EvalInt(h, fr, i).value;
      if 0 <= k < |h[Get(fr, x).a].xs| {
        WriteIndexRefines(h, fr, env, ev, {q} + K, o, x, k, EvalInt(h, fr, v).value);
      }
    }
  }

  // ── `x = append(x, e)` ──

  lemma AppendSelfRefines(h: Heap, fr: Frame, env: V.Env, pr: Proc, o: Outside, K: set<nat>, p: nat, x: Slot,
          e: IntExpr)
    requires Ready(h, fr, env, pr, o, K, p)
    requires Site(pr, [Use(x)] + (IntEvents(e) + [Use(x)] + IntEvents(e)), K, p)
    ensures var q := p + 2 + 2 * |IntEvents(e)|;
            StmtMatches(h, ExecAppend(h, fr, pr.ints, x, e), V.ExecAppend(env, pr.ints, x, e), o, ProcEvents(pr), {q}
              + K)
  {
    hide ProcEvents, Occurs, InLoops, WellDeclared, NoDecl, SimAll, Disciplined, EvalInt, V.EvalInt, IntEvents, Keeps,
         Grow, AppendCopy, Bind, V.Bind;
    var ev := ProcEvents(pr);
    var m := |IntEvents(e)|;
    SiteParts(pr, [Use(x)], IntEvents(e) + [Use(x)] + IntEvents(e), K, p);
    SiteParts(pr, IntEvents(e) + [Use(x)], IntEvents(e), K, p + 1);
    SiteParts(pr, IntEvents(e), [Use(x)], K, p + 1);
    NothingDeclared(pr, p);
    WholeHere(h, fr, env, pr, o, K, p, p, x);
    IntHere(h, fr, env, pr, o, K, p, p + 1, e);
    WholeHere(h, fr, env, pr, o, K, p, p + 1 + m, x);
    IntHere(h, fr, env, pr, o, K, p, p + 2 + m, e);
    SimLater(h, fr, env, ev, p, p + 2 + 2 * m, K, {});
    if EvalInt(h, fr, e).Ok? {
      GrowSelfRefines(h, fr, env, ev, {p + 2 + 2 * m} + K, pr.ints, o, x, EvalInt(h, fr, e).value);
    }
  }

  /** A value in flight is bound to x, which takes its int value if x is an int slot. */
  lemma BindRefines(h: Heap, fr: Frame, env: V.Env, ev: Events, R: set<nat>, ints: seq<bool>, o: Outside, x: Slot,
          t: Temp, pv: V.Val)
    requires InFlight(h, fr, o, t, pv) && SimAll(h, fr, env, ev, R, {x})
    ensures Disciplined(h, Bind(fr, ints, x, t), o)
      && SimAll(h, Bind(fr, ints, x, t), V.Bind(env, ints, x, pv), ev, R, {})
  {
    if IsInt(ints, x) {
      assert AsInt(t.v) == V.AsInt(pv);
      BindIntRefines(h, fr, env, ev, R, o, x, AsInt(t.v));
    } else {
      BindOk(h, fr, x, t, o);
      BindSim(h, fr, env, ev, R, x, t, pv);
    }
  }

  lemma GrowSelfRefines(h: Heap, fr: Frame, env: V.Env, ev: Events, R: set<nat>, ints: seq<bool>, o: Outside, x: Slot,
          n: int)
    requires Disciplined(h, fr, o) && SimAll(h, fr, env, ev, R, {}) && FullSim(h, Get(fr, x), V.Get(env, x))
    ensures var v := Get(fr, x);
            var env' := V.Bind(env, ints, x, V.AppendTo(V.Get(env, x), n));
            if !IsInt(ints, x) && IsList(h, v) && Owned(fr, x) then
              var (h', v') := Grow(h, v, n);
              var fr' := Put(fr, x, Temp(v', true));
              Disciplined(h', fr', o) && Keeps(h, h', o.kept) && SimAll(h', fr', env', ev, R, {})
            else
              var (h', v') := AppendCopy(h, v, n);
              var fr' := Bind(fr, ints, x, Temp(v', true));
              Disciplined(h', fr', o) && Keeps(h, h', o.kept) && SimAll(h', fr', env', ev, R, {})
  {
    var v, pv := Get(fr, x), V.Get(env, x);
    var env' := V.Bind(env, ints, x, V.AppendTo(pv, n));
    if !IsInt(ints, x) && IsList(h, v) && Owned(fr, x) {
      var (h', v') := Grow(h, v, n);
      var fr0 := Put(fr, x, Temp(HNil, false));
      var fr' := Put(fr, x, Temp(v', true));
      GrowMoved(h, fr, o, x, n);
      BindOk(h', fr0, x, Temp(v', true), o);
      assert Put(fr0, x, Temp(v', true)) == fr';
      SimReplace(h, fr, env, ev, R, h', fr', env', x);
    } else {
      var (h', v') := AppendCopy(h, v, n);
      AppendCopyRefines(h, fr, o, v, pv, n);
      SimExtend(h, fr, env, ev, R, {}, [h'[|h|]]);
      assert h' == h + [h'[|h|]];
      SimDrop(h', fr, env, ev, R, x);
      BindRefines(h', fr, env, ev, R, ints, o, x, Temp(v', true), V.AppendTo(pv, n));
    }
  }

  // ── one value, passed, bound, stored or returned ──

  /** Position q reads argument a, not as a call's own target. */
  ghost predicate ReadsArg(ev: Events, q: nat, a: Arg) {
    match a
    case ArgInt(e) => Occurs(ev, q, IntEvents(e))
    case ArgLocal(x) => q < |ev| && Whole(ev[q]) && !ev[q].SelfUse? && ev[q].x == x
    case ArgField(x, f) => q < |ev| && (ev[q] == FieldMove(x, f) || ev[q] == Path(x, f))
  }

  ghost predicate ValueMatches(h: Heap, r: ArgOut, pv: Result<V.Val>, o: Outside) {
    match r
    case ArgErr(f) => pv == Err(f)
    case ArgOk(h', fr', t) => pv.Ok? && InFlight(h', fr', o, t, pv.value) && Keeps(h, h', o.kept)
  }

  lemma ValueRefines(h: Heap, fr: Frame, env: V.Env, pr: Proc, o: Outside, K: set<nat>, q: nat, a: Arg)
    requires Ready(h, fr, env, pr, o, K, q) && ReadsArg(ProcEvents(pr), q, a)
    requires WellDeclared(ProcEvents(pr)) && InLoops(pr, K, q, q + ArgLen(a)) && q + ArgLen(a) <= |ProcEvents(pr)|
    requires ArgEscapes(pr.ints, a) <= o.escaping
    ensures var r := EvalArg(h, fr, pr.ints, a, Moves(pr, q), false);
            && ValueMatches(h, r, V.EvalArg(env, pr.ints, a), o)
            && (r.ArgOk? ==> SimAll(r.h, r.fr, env, ProcEvents(pr), {q + ArgLen(a)} + K, {}))
  {
    hide ProcEvents, SimAll, Disciplined, TempsOk, WellDeclared, InLoops, FullSims, EvalArg, V.EvalArg, Decide;
    NothingWaiting(h, fr, o, [a], NeverBorrows);
    assert ArgSite(pr, o, [a], NeverBorrows, 0, K, q);
    assert Avoids(ProcEvents(pr), q, q + ArgLen(a), {});
    assert [a][0] == a && !NeverBorrows(0);
    match a {
      case ArgInt(_) => IntArgRefines(h, fr, env, pr, o, [a], NeverBorrows, [], [], K, {}, q);
      case ArgLocal(x) => LocalArgRefines(h, fr, env, pr, o, [a], NeverBorrows, [], [], K, {}, q, x);
      case ArgField(x, f) => FieldArgRefines(h, fr, env, pr, o, [a], NeverBorrows, [], [], K, {}, q, x, f);
    }
    var r := EvalArg(h, fr, pr.ints, a, Moves(pr, q), false);
    var pv := V.EvalArg(env, pr.ints, a);
    if r.ArgOk? {
      assert [] + [r.t] == [r.t] && [] + [pv.value] == [pv.value];
      WaitingFlight(r.h, r.fr, o, r.t, pv.value, [a]);
    }
  }

  /** Moving only concerns candidates. */
  lemma MoveIgnored(h: Heap, fr: Frame, pr: Proc, a: Arg, q: nat, m: bool)
    requires ReadsArg(ProcEvents(pr), q, a)
    requires m == Moves(pr, q) || a.ArgInt?
      || (!m && q < |ProcEvents(pr)| && (ProcEvents(pr)[q].Use? || ProcEvents(pr)[q].Path?))
    ensures EvalArg(h, fr, pr.ints, a, m, false) == EvalArg(h, fr, pr.ints, a, Moves(pr, q), false)
  {
    hide ProcEvents;
  }

  /** Evaluating a stored value leaves struct x as it was, unless x itself is the value. */
  lemma StoredLeaves(h: Heap, fr: Frame, ints: seq<bool>, o: Outside, a: Arg, move: bool, x: Slot, sv: V.Val)
    requires Disciplined(h, fr, o) && FullSim(h, Get(fr, x), sv) && IsStruct(h, Get(fr, x))
    requires EvalArg(h, fr, ints, a, move, false).ArgOk? && (a.ArgField? ==> !move)
    ensures var r := EvalArg(h, fr, ints, a, move, false);
            !IsStruct(r.h, r.t.v) ==>
              IsStruct(r.h, Get(r.fr, x)) && FullSim(r.h, Get(r.fr, x), sv)
              && |r.h[Get(r.fr, x).a].vals| == |h[Get(fr, x).a].vals|
  {
    var r := EvalArg(h, fr, ints, a, move, false);
    match a
    case ArgInt(_) =>
    case ArgLocal(y) =>
      if y != x || IsInt(ints, x) { assert Get(r.fr, x) == Get(fr, x); }
    case ArgField(y, f) =>
      var b := Get(fr, y).a;
      if f < |h[b].vals| && Owned(fr, y) && FieldOwned(h[b], f) {
        GiveUpSim(h, b, f, false, Get(fr, x), sv);
        forall g: nat ensures !MovedIn(r.h, Get(fr, x), g) { assert !MovedIn(h, Get(fr, x), g); }
      }
  }

  lemma StoredReads(pr: Proc, a: Arg, K: set<nat>, q: nat)
    requires Site(pr, StoredEvents(pr.ints, a), K, q)
    ensures |StoredEvents(pr.ints, a)| == ArgLen(a) && ReadsArg(ProcEvents(pr), q, a)
    ensures q + ArgLen(a) <= |ProcEvents(pr)|
    ensures a.ArgField? ==> !Moves(pr, q)
    ensures a.ArgInt? || (a.ArgLocal? || !Moves(pr, q))
  {
    hide ProcEvents;
    if !a.ArgInt? { OccursAt(ProcEvents(pr), q, StoredEvents(pr.ints, a), 0); }
  }

  lemma FieldSetRefines(h: Heap, fr: Frame, env: V.Env, pr: Proc, o: Outside, K: set<nat>, p: nat, x: Slot, f: nat,
          a: Arg)
    requires Ready(h, fr, env, pr, o, K, p) && ArgEscapes(pr.ints, a) <= o.escaping
    requires Site(pr, [Use(x)] + StoredEvents(pr.ints, a), K, p)
    ensures var q := p + 1 + |StoredEvents(pr.ints, a)|;
            StmtMatches(h, ExecFieldSet(h, fr, pr, x, f, a, p), V.ExecFieldSet(env, pr.ints, x, f, a), o,
              ProcEvents(pr), {q} + K)
  {
    hide ProcEvents, Occurs, InLoops, WellDeclared, NoDecl, SimAll, Disciplined, EvalInt, V.EvalInt, IntEvents,
         ReadsArg, EvalArg, V.EvalArg, StoreField, V.WriteField, Moves, StoredEvents, ArgEscapes;
    var ev := ProcEvents(pr);
    var q := p + 1 + |StoredEvents(pr.ints, a)|;
    SiteParts(pr, [Use(x)], StoredEvents(pr.ints, a), K, p);
    NothingDeclared(pr, p);
    WholeHere(h, fr, env, pr, o, K, p, p, x);
    StoredReads(pr, a, K, p + 1);
    SimLater(h, fr, env, ev, p, p + 1, K, {});
    var v := Get(fr, x);
    if IsStruct(h, v) && f < |h[v.a].vals| {
      var m := a.ArgLocal? && Moves(pr, p + 1);
      MoveIgnored(h, fr, pr, a, p + 1, m);
      ValueRefines(h, fr, env, pr, o, K, p + 1, a);
      var r := EvalArg(h, fr, pr.ints, a, m, false);
      if r.ArgOk? {
        StoredLeaves(h, fr, pr.ints, o, a, m, x, V.Get(env, x));
        StoreRefines(r.h, r.fr, env, ev, {q} + K, o, x, f, r.t, V.EvalArg(env, pr.ints, a).value);
        KeepsThrough(h, r.h, StoreField(r.h, r.fr, x, f, r.t),
          V.WriteField(env, x, f, V.EvalArg(env, pr.ints, a).value), o, ev, {q} + K);
      }
    }
  }

  lemma KeepsThrough(h: Heap, h1: Heap, out: Out, pout: V.POut, o: Outside, ev: Events, R: set<nat>)
    requires Keeps(h, h1, o.kept) && StmtMatches(h1, out, pout, o, ev, R)
    ensures StmtMatches(h, out, pout, o, ev, R)
  {
  }
}
