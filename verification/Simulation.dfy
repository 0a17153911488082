/** What it means for a heap value to stand for a value of the language, and which slots must do so at
  * which point of the text: those declared before it and occurring at or after it. A slot emptied by
  * a move, and a field given up, are not needed later, so nothing is asked of them.
  */
module Simulation {
  import opened ProcSyntax
  import V = ValueMachine
  import opened MoveAnalysis
  import opened OwnershipMachine
  import opened Ownership

  predicate SimField(h: Heap, v: HVal, pv: V.Val) {
    match v
    case HNil => pv == V.VNil
    case HInt(n) => pv == V.VInt(n)
    case HRef(a) => a < |h| && h[a].ListCell? && pv == V.VList(h[a].xs)
  }

  /** v stands for pv, except possibly in struct fields that were moved out. */
  ghost predicate Sim(h: Heap, v: HVal, pv: V.Val) {
    if IsStruct(h, v) then
      && pv.VStruct? && |pv.fs| == |h[v.a].vals|
      && forall k: nat :: k < |pv.fs| && !MovedAt(h[v.a], k) ==> SimField(h, h[v.a].vals[k], pv.fs[k])
    else SimField(h, v, pv)
  }

  predicate MovedIn(h: Heap, v: HVal, f: nat) {
    IsStruct(h, v) && MovedAt(h[v.a], f)
  }

  /** v stands for pv, with every field in place. */
  ghost predicate FullSim(h: Heap, v: HVal, pv: V.Val) {
    Sim(h, v, pv) && forall f: nat :: !MovedIn(h, v, f)
  }

  ghost predicate LiveAt(ev: Events, x: Slot, r: nat) {
    DeclaredIn(ev, x, 0, r) && !NoLater(ev, x, r)
  }

  /** Slot x, holding v, is fit for every occurrence from position r on. */
  ghost predicate Good(h: Heap, v: HVal, pv: V.Val, ev: Events, x: Slot, r: nat) {
    LiveAt(ev, x, r) ==>
      && Sim(h, v, pv)
      && forall f: nat :: MovedIn(h, v, f) ==> NoWhole(ev, x, r) && NoPath(ev, x, f, r)
  }

  /** ... for every position of R. */
  ghost predicate Fit(h: Heap, v: HVal, pv: V.Val, ev: Events, x: Slot, R: set<nat>) {
    forall r <- R :: Good(h, v, pv, ev, x, r)
  }

  /** Every slot is fit, except those in `dead`: moved out and about to be assigned. */
  ghost predicate SimAll(h: Heap, fr: Frame, env: V.Env, ev: Events, R: set<nat>, dead: set<Slot>) {
    && |env| == |fr.slots|
    && forall x: Slot :: x !in dead ==> Fit(h, Get(fr, x), V.Get(env, x), ev, x, R)
  }

  ghost predicate Avoids(ev: Events, lo: nat, hi: nat, dead: set<Slot>) {
    forall q :: lo <= q < hi && q < |ev| ==> ev[q].x !in dead
  }

  lemma SimAgree(h: Heap, h': Heap, v: HVal, pv: V.Val)
    requires HeapOk(h) && ValOk(h, v) && Agree(h, h', v) && Sim(h, v, pv)
    ensures Sim(h', v, pv)
  {
    if IsStruct(h, v) {
      var c := h[v.a];
      assert CellOk(h, c);
      forall k: nat | k < |pv.fs| && !MovedAt(c, k)
        ensures SimField(h', c.vals[k], pv.fs[k])
      {
        if c.vals[k].HRef? { assert HoldsAt(c, k, c.vals[k].a); }
      }
    }
  }

  lemma FullSimAgree(h: Heap, h': Heap, v: HVal, pv: V.Val)
    requires HeapOk(h) && ValOk(h, v) && Agree(h, h', v) && FullSim(h, v, pv)
    ensures FullSim(h', v, pv)
  {
    SimAgree(h, h', v, pv);
    forall f: nat ensures !MovedIn(h', v, f) { assert !MovedIn(h, v, f); }
  }

  lemma FitAgree(h: Heap, h': Heap, v: HVal, pv: V.Val, ev: Events, x: Slot, R: set<nat>)
    requires HeapOk(h) && ValOk(h, v) && Agree(h, h', v) && Fit(h, v, pv, ev, x, R)
    ensures Fit(h', v, pv, ev, x, R)
  {
    forall r | r in R
      ensures Good(h', v, pv, ev, x, r)
    {
      assert Good(h, v, pv, ev, x, r);
      if LiveAt(ev, x, r) {
        SimAgree(h, h', v, pv);
        forall f: nat | MovedIn(h', v, f)
          ensures NoWhole(ev, x, r) && NoPath(ev, x, f, r)
        {
          assert MovedIn(h, v, f);
        }
      }
    }
  }

  lemma FullFit(h: Heap, v: HVal, pv: V.Val, ev: Events, x: Slot, R: set<nat>)
    requires FullSim(h, v, pv)
    ensures Fit(h, v, pv, ev, x, R)
  {
  }

  // ── moving along the text ──

  ghost predicate NoDecl(ev: Events, lo: nat, hi: nat) {
    forall q :: lo <= q < hi && q < |ev| ==> !ev[q].Decl?
  }

  lemma GoodLater(h: Heap, v: HVal, pv: V.Val, ev: Events, x: Slot, r: nat, r': nat)
    requires Good(h, v, pv, ev, x, r) && r <= r'
    requires !DeclaredIn(ev, x, r, r')
    ensures Good(h, v, pv, ev, x, r')
  {
    if LiveAt(ev, x, r') {
      var d :| 0 <= d < r' && d < |ev| && ev[d] == Decl(x);
      assert d < r;
      assert LiveAt(ev, x, r);
      forall f: nat | MovedIn(h, v, f)
        ensures NoWhole(ev, x, r') && NoPath(ev, x, f, r')
      {
      }
    }
  }

  /** With nothing declared in between, what was fit at r is fit at r'. */
  lemma SimLater(h: Heap, fr: Frame, env: V.Env, ev: Events, r: nat, r': nat, K: set<nat>, dead: set<Slot>)
    requires SimAll(h, fr, env, ev, {r} + K, dead) && r <= r' && NoDecl(ev, r, r')
    ensures SimAll(h, fr, env, ev, {r'} + K, dead)
  {
    forall x: Slot | x !in dead
      ensures Fit(h, Get(fr, x), V.Get(env, x), ev, x, {r'} + K)
    {
      assert Fit(h, Get(fr, x), V.Get(env, x), ev, x, {r} + K);
      assert Good(h, Get(fr, x), V.Get(env, x), ev, x, r);
      GoodLater(h, Get(fr, x), V.Get(env, x), ev, x, r, r');
    }
  }

  /** Every use is preceded by its declaration, and no slot is declared twice. */
  ghost predicate WellDeclared(ev: Events) {
    && (forall q :: 0 <= q < |ev| && !ev[q].Decl? ==> DeclaredIn(ev, ev[q].x, 0, q))
    && (forall d, d' :: 0 <= d < |ev| && 0 <= d' < |ev| && ev[d].Decl? && ev[d] == ev[d'] ==> d == d')
  }

  predicate Occurs(ev: Events, p: nat, es: Events) {
    p + |es| <= |ev| && ev[p..p + |es|] == es
  }

  /** A slot read at q holds its value, with the fields that read needs in place. */
  lemma Readable(h: Heap, fr: Frame, env: V.Env, ev: Events, R: set<nat>, dead: set<Slot>, r: nat, q: nat)
    requires WellDeclared(ev) && SimAll(h, fr, env, ev, R, dead) && r in R
    requires r <= q < |ev| && !ev[q].Decl? && NoDecl(ev, r, q) && ev[q].x !in dead
    ensures Sim(h, Get(fr, ev[q].x), V.Get(env, ev[q].x))
    ensures forall f: nat :: MovedIn(h, Get(fr, ev[q].x), f) ==> !Whole(ev[q]) && !ReadsPath(ev[q], f)
  {
    var x := ev[q].x;
    assert DeclaredIn(ev, x, 0, q);
    assert LiveAt(ev, x, r);
    assert Fit(h, Get(fr, x), V.Get(env, x), ev, x, R);
    assert Good(h, Get(fr, x), V.Get(env, x), ev, x, r);
  }

  // ── inspecting reads agree ──

  lemma FieldSame(h: Heap, v: HVal, pv: V.Val, f: nat)
    requires Sim(h, v, pv) && !MovedIn(h, v, f)
    ensures Field(h, v, f).Err? <==> V.Field(pv, f).Err?
    ensures Field(h, v, f).Err? ==> Field(h, v, f).fault == V.Field(pv, f).fault
    ensures Field(h, v, f).Ok? ==> SimField(h, Field(h, v, f).value, V.Field(pv, f).value)
  {
  }

  predicate OnlyReads(es: Events) {
    forall e <- es :: e.Use? || e.Path?
  }

  lemma IntEventsRead(e: IntExpr)
    ensures OnlyReads(IntEvents(e))
  {
    match e
    case Neg(e1) => IntEventsRead(e1);
    case Bin(_, l, r) => IntEventsRead(l); IntEventsRead(r);
    case Index(_, i) => IntEventsRead(i);
    case FieldIndex(_, _, i) => IntEventsRead(i);
    case _ =>
  }

  lemma OccursParts(ev: Events, p: nat, es1: Events, es2: Events)
    requires Occurs(ev, p, es1 + es2)
    ensures Occurs(ev, p, es1) && Occurs(ev, p + |es1|, es2)
  {
    var n := |es1| + |es2|;
    assert ev[p..p + |es1|] == ev[p..p + n][..|es1|] == es1;
    assert ev[p + |es1|..p + n] == ev[p..p + n][|es1|..] == es2;
  }

  lemma OccursAt(ev: Events, p: nat, es: Events, k: nat)
    requires Occurs(ev, p, es) && k < |es|
    ensures ev[p + k] == es[k]
  {
    assert ev[p..p + |es|][k] == ev[p + k];
  }

  lemma ReadsNoDecl(ev: Events, p: nat, es: Events)
    requires Occurs(ev, p, es) && OnlyReads(es)
    ensures NoDecl(ev, p, p + |es|)
  {
    forall q | p <= q < p + |es| ensures !ev[q].Decl? {
      OccursAt(ev, p, es, q - p);
      assert es[q - p] in es;
    }
  }

  lemma NoDeclJoin(ev: Events, a: nat, b: nat, c: nat)
    requires NoDecl(ev, a, b) && NoDecl(ev, b, c)
    ensures NoDecl(ev, a, c)
  {
  }

  lemma InspectSame(h: Heap, fr: Frame, env: V.Env, x: Slot, i: IntExpr)
    requires Sim(h, Get(fr, x), V.Get(env, x)) && EvalInt(h, fr, i) == V.EvalInt(env, i)
    ensures EvalInt(h, fr, Var(x)) == V.EvalInt(env, Var(x)) && EvalInt(h, fr, Len(x)) == V.EvalInt(env, Len(x))
    ensures EvalInt(h, fr, Index(x, i)) == V.EvalInt(env, Index(x, i))
  {
  }

  lemma InspectFieldSame(h: Heap, fr: Frame, env: V.Env, x: Slot, f: nat, i: IntExpr)
    requires Sim(h, Get(fr, x), V.Get(env, x)) && !MovedIn(h, Get(fr, x), f)
    requires EvalInt(h, fr, i) == V.EvalInt(env, i)
    ensures EvalInt(h, fr, FieldInt(x, f)) == V.EvalInt(env, FieldInt(x, f))
    ensures EvalInt(h, fr, FieldLen(x, f)) == V.EvalInt(env, FieldLen(x, f))
    ensures EvalInt(h, fr, FieldIndex(x, f, i)) == V.EvalInt(env, FieldIndex(x, f, i))
  {
    FieldSame(h, Get(fr, x), V.Get(env, x), f);
    hide Sim, MovedIn, Field, V.Field;
  }

  lemma CombineSame(h: Heap, fr: Frame, env: V.Env, a: IntExpr, b: IntExpr, op: ArithOp, n: int)
    requires EvalInt(h, fr, a) == V.EvalInt(env, a) && EvalInt(h, fr, b) == V.EvalInt(env, b)
    ensures EvalInt(h, fr, Lit(n)) == V.EvalInt(env, Lit(n)) && EvalInt(h, fr, Neg(a)) == V.EvalInt(env, Neg(a))
    ensures EvalInt(h, fr, Bin(op, a, b)) == V.EvalInt(env, Bin(op, a, b))
  {
    hide Arith;
  }

  /** An int expression means the same on both machines, read anywhere after r. */
  lemma {:induction false} EvalIntSame(h: Heap, fr: Frame, env: V.Env, ev: Events, R: set<nat>, dead: set<Slot>, r: nat,
          q: nat, e: IntExpr)
    requires WellDeclared(ev) && SimAll(h, fr, env, ev, R, dead) && r in R
    requires r <= q && NoDecl(ev, r, q) && Occurs(ev, q, IntEvents(e))
    requires Avoids(ev, q, q + |IntEvents(e)|, dead)
    ensures EvalInt(h, fr, e) == V.EvalInt(env, e)
    decreases e
  {
    IntEventsRead(e);
    ReadsNoDecl(ev, q, IntEvents(e));
    forall k | 0 <= k < |IntEvents(e)| ensures IntEvents(e)[k].x !in dead { OccursAt(ev, q, IntEvents(e), k); }
    hide WellDeclared, SimAll, NoDecl, Occurs, OnlyReads, Sim, MovedIn, EvalInt, V.EvalInt;
    match e
    case Lit(n) => CombineSame(h, fr, env, e, e, Add, n);
    case Var(x) => ReadAt(h, fr, env, ev, R, dead, r, q, IntEvents(e), 0); InspectSame(h, fr, env, x, Lit(0));
    case Neg(e1) =>
      EvalIntSame(h, fr, env, ev, R, dead, r, q, e1);
      CombineSame(h, fr, env, e1, e1, Add, 0);
    case Bin(op, a, b) =>
      OccursParts(ev, q, IntEvents(a), IntEvents(b));
      IntEventsRead(a);
      ReadsNoDecl(ev, q, IntEvents(a));
      NoDeclJoin(ev, r, q, q + |IntEvents(a)|);
      EvalIntSame(h, fr, env, ev, R, dead, r, q, a);
      EvalIntSame(h, fr, env, ev, R, dead, r, q + |IntEvents(a)|, b);
      CombineSame(h, fr, env, a, b, op, 0);
    case Index(x, i) =>
      OccursParts(ev, q, IntEvents(i), [Use(x)]);
      EvalIntSame(h, fr, env, ev, R, dead, r, q, i);
      ReadAt(h, fr, env, ev, R, dead, r, q, IntEvents(e), |IntEvents(i)|);
      InspectSame(h, fr, env, x, i);
    case Len(x) => ReadAt(h, fr, env, ev, R, dead, r, q, IntEvents(e), 0); InspectSame(h, fr, env, x, Lit(0));
    case FieldInt(x, f) =>
      ReadAt(h, fr, env, ev, R, dead, r, q, IntEvents(e), 0);
      InspectFieldSame(h, fr, env, x, f, Lit(0));
    case FieldIndex(x, f, i) =>
      OccursParts(ev, q, IntEvents(i), [Path(x, f)]);
      EvalIntSame(h, fr, env, ev, R, dead, r, q, i);
      ReadAt(h, fr, env, ev, R, dead, r, q, IntEvents(e), |IntEvents(i)|);
      InspectFieldSame(h, fr, env, x, f, i);
    case FieldLen(x, f) =>
      ReadAt(h, fr, env, ev, R, dead, r, q, IntEvents(e), 0);
      InspectFieldSame(h, fr, env, x, f, Lit(0));
  }

  /** `Readable` for the k-th occurrence of a run of reads. */
  lemma ReadAt(h: Heap, fr: Frame, env: V.Env, ev: Events, R: set<nat>, dead: set<Slot>, r: nat, q: nat, es: Events,
          k: nat)
    requires WellDeclared(ev) && SimAll(h, fr, env, ev, R, dead) && r in R
    requires r <= q && NoDecl(ev, r, q) && Occurs(ev, q, es) && OnlyReads(es) && k < |es|
    requires es[k].x !in dead
    ensures Sim(h, Get(fr, es[k].x), V.Get(env, es[k].x))
    ensures forall f: nat :: MovedIn(h, Get(fr, es[k].x), f) ==> !Whole(es[k]) && !ReadsPath(es[k], f)
  {
    ReadsNoDecl(ev, q, es);
    OccursAt(ev, q, es, k);
    assert es[k] in es;
    Readable(h, fr, env, ev, R, dead, r, q + k);
  }

  lemma {:induction false} EvalIntsSame(h: Heap, fr: Frame, env: V.Env, ev: Events, R: set<nat>, dead: set<Slot>,
          r: nat, q: nat, es: seq<IntExpr>)
    requires WellDeclared(ev) && SimAll(h, fr, env, ev, R, dead) && r in R
    requires r <= q && NoDecl(ev, r, q) && Occurs(ev, q, IntsEvents(es))
    requires Avoids(ev, q, q + |IntsEvents(es)|, dead)
    ensures EvalInts(h, fr, es) == V.EvalInts(env, es)
    ensures NoDecl(ev, q, q + |IntsEvents(es)|)
    decreases |es|
  {
    if es != [] {
      var n := |IntEvents(es[0])|;
      OccursParts(ev, q, IntEvents(es[0]), IntsEvents(es[1..]));
      IntEventsRead(es[0]);
      ReadsNoDecl(ev, q, IntEvents(es[0]));
      NoDeclJoin(ev, r, q, q + n);
      EvalIntSame(h, fr, env, ev, R, dead, r, q, es[0]);
      EvalIntsSame(h, fr, env, ev, R, dead, r, q + n, es[1..]);
    }
  }

  lemma EvalCondSame(h: Heap, fr: Frame, env: V.Env, ev: Events, R: set<nat>, dead: set<Slot>, r: nat, c: Cond)
    requires WellDeclared(ev) && SimAll(h, fr, env, ev, R, dead) && r in R
    requires Occurs(ev, r, CondEvents(c)) && dead == {}
    ensures EvalCond(h, fr, c) == V.EvalCond(env, c)
    ensures NoDecl(ev, r, r + |CondEvents(c)|)
  {
    var n := |IntEvents(c.l)|;
    OccursParts(ev, r, IntEvents(c.l), IntEvents(c.r));
    IntEventsRead(c.l);
    IntEventsRead(c.r);
    ReadsNoDecl(ev, r, IntEvents(c.l));
    ReadsNoDecl(ev, r + n, IntEvents(c.r));
    EvalIntSame(h, fr, env, ev, R, dead, r, r, c.l);
    EvalIntSame(h, fr, env, ev, R, dead, r, r + n, c.r);
  }
}
