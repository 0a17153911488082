/** Writes through a field: the nested index write and the append to a field's list. Each takes the
  * field's list out of its struct into a temporary, writes it there and stores it back; it is
  * written in place when the slot owns the struct and the struct owns the list, and copied otherwise.
  * Both run to what the language gives, and both fail with it.
  */
module FieldRefinement {
  import opened ProcSyntax
  import V = ValueMachine
  import opened MoveAnalysis
  import opened OwnershipMachine
  import opened Ownership
  import opened OwnershipUpdates
  import opened Simulation
  import opened Arguments
  import opened ArgumentRefinement
  import opened RhsRefinement
  import opened WriteRefinement
  import opened StatementRefinement

  /** Whoever owns a struct and its field f may write f's list; nobody else sees it. */
  lemma FieldListAlone(h: Heap, fr: Frame, o: Outside, x: Slot, f: nat)
    requires Disciplined(h, fr, o) && IsStruct(h, Get(fr, x)) && Owned(fr, x)
    requires FieldOwned(h[Get(fr, x).a], f) && f < |h[Get(fr, x).a].vals|
    requires IsList(h, h[Get(fr, x).a].vals[f]) && h[Get(fr, x).a].vals[f].a != EMPTY
    ensures var b := h[Get(fr, x).a].vals[f].a;
            && b !in o.kept && b != Get(fr, x).a
            && (forall y: Slot :: y != x ==> !Reaches(h, Get(fr, y), b))
            && (forall k: nat :: k != f && HoldsAt(h[Get(fr, x).a], k, b) ==> MovedAt(h[Get(fr, x).a], k))
            && !MovedAt(h[Get(fr, x).a], f)
  {
    var c := h[Get(fr, x).a];
    var b := c.vals[f].a;
    assert CellOk(h, c) && Exclusive(h, fr, o.kept, x);
    assert HoldsAt(c, f, b) && OwnAt(c, f);
    assert CellOwns(c, b) && Owns(h, Get(fr, x), b);
  }

  /** Field f's list rewritten in place is field f rewritten in the language. */
  lemma FieldListSim(h: Heap, fr: Frame, env: V.Env, ev: Events, R: set<nat>, o: Outside, x: Slot, f: nat, xs: seq<int>)
    requires Disciplined(h, fr, o) && IsStruct(h, Get(fr, x)) && Owned(fr, x)
    requires FieldOwned(h[Get(fr, x).a], f) && f < |h[Get(fr, x).a].vals|
    requires IsList(h, h[Get(fr, x).a].vals[f]) && h[Get(fr, x).a].vals[f].a != EMPTY
    requires SimAll(h, fr, env, ev, R, {}) && FullSim(h, Get(fr, x), V.Get(env, x))
    ensures x < |env|
    ensures var b := h[Get(fr, x).a].vals[f].a;
            var h' := h[b := ListCell(xs)];
            && Disciplined(h', fr, o) && Keeps(h, h', o.kept)
            && SimAll(h', fr, env[x := V.VStruct(env[x].fs[f := V.VList(xs)])], ev, R, {})
  {
    var v := Get(fr, x);
    var c := h[v.a];
    var b := c.vals[f].a;
    var h' := h[b := ListCell(xs)];
    FieldListAlone(h, fr, o, x, f);
    WriteListOk(h, fr, b, xs, o);
    forall y: Slot | y != x ensures Agree(h, h', Get(fr, y)) {
      AgreeWrite(h, b, ListCell(xs), Get(fr, y));
    }
    var env' := env[x := V.VStruct(env[x].fs[f := V.VList(xs)])];
    assert CellOk(h, c);
    forall k: nat | k < |c.vals|
      ensures SimField(h', c.vals[k], env'[x].fs[k])
    {
      assert !MovedIn(h, v, k) && FieldOk(h, c.vals[k]);
      assert k != f ==> !HoldsAt(c, k, b);
    }
    forall k: nat ensures !MovedIn(h', v, k) { assert !MovedIn(h, v, k); }
    SimReplace(h, fr, env, ev, R, h', fr, env', x);
  }

  // ── `x.f = append(x.f, e)` ──

  /** Rewriting an owned field with its own value changes nothing. */
  lemma SetSameField(h: Heap, c: Cell, f: nat)
    requires c.StructCell? && CellOk(h, c) && FieldOwned(c, f) && f < |c.vals|
    ensures SetField(c, f, Temp(c.vals[f], true)) == c
  {
    assert OwnAt(c, f) && !MovedAt(c, f);
  }

  lemma GrowFieldRefines(h: Heap, fr: Frame, env: V.Env, ev: Events, R: set<nat>, o: Outside, x: Slot, f: nat, n: int)
    requires Disciplined(h, fr, o) && IsStruct(h, Get(fr, x)) && Owned(fr, x)
    requires FieldOwned(h[Get(fr, x).a], f) && f < |h[Get(fr, x).a].vals| && IsList(h, h[Get(fr, x).a].vals[f])
    requires SimAll(h, fr, env, ev, R, {}) && FullSim(h, Get(fr, x), V.Get(env, x))
    ensures var a := Get(fr, x).a;
            var fv := h[a].vals[f];
            var (h1, fv1) := Grow(h, fv, n);
            && a < |h1| && h1[a].StructCell?
            && var h2 := h1[a := SetField(h1[a], f, Temp(fv1, true))];
            && V.Get(env, x).VStruct? && f < |V.Get(env, x).fs|
            && StmtMatches(h, Norm(h2, fr), V.WriteField(env, x, f, V.AppendTo(V.Get(env, x).fs[f], n)), o, ev, R)
  {
    var a := Get(fr, x).a;
    var fv := h[a].vals[f];
    assert CellOk(h, h[a]) && !MovedIn(h, Get(fr, x), f);
    assert SimField(h, fv, V.Get(env, x).fs[f]);
    var (h1, fv1) := Grow(h, fv, n);
    if fv.a == EMPTY {
      assert h[EMPTY].xs + [n] == [n];
      FreshList(h, fr, [n], o, true);
      SimExtend(h, fr, env, ev, R, {}, [ListCell([n])]);
      AgreeExtend(h, [ListCell([n])], Get(fr, x));
      FullSimAgree(h, h1, Get(fr, x), V.Get(env, x));
      StoreOwned(h1, fr, env, ev, R, o, x, f, Temp(fv1, true), V.VList([n]));
    } else {
      FieldListAlone(h, fr, o, x, f);
      SetSameField(h, h[a], f);
      assert h1[a] == h[a];
      assert h1[a := h[a]] == h1;
      FieldListSim(h, fr, env, ev, R, o, x, f, h[fv.a].xs + [n]);
    }
  }

  lemma CopyFieldRefines(h: Heap, fr: Frame, env: V.Env, ev: Events, R: set<nat>, o: Outside, x: Slot, f: nat, n: int)
    requires Disciplined(h, fr, o) && IsStruct(h, Get(fr, x)) && f < |h[Get(fr, x).a].vals|
    requires SimAll(h, fr, env, ev, R, {}) && FullSim(h, Get(fr, x), V.Get(env, x))
    ensures var fv := h[Get(fr, x).a].vals[f];
            var (h1, fr1) := Mutable(h, fr, x);
            var (h2, fv1) := AppendCopy(h1, fv, n);
            && V.Get(env, x).VStruct? && f < |V.Get(env, x).fs|
            && StmtMatches(h, StoreField(h2, fr1, x, f, Temp(fv1, true)),
                           V.WriteField(env, x, f, V.AppendTo(V.Get(env, x).fs[f], n)), o, ev, R)
  {
    hide StoreField, V.WriteField;
    var fv := h[Get(fr, x).a].vals[f];
    var pv := V.Get(env, x);
    var (h1, fr1) := Mutable(h, fr, x);
    MutableSimAll(h, fr, env, ev, R, o, x);
    assert CellOk(h1, h1[Get(fr1, x).a]);
    assert !MovedIn(h1, Get(fr1, x), f) && FieldOk(h1, fv);
    assert SimField(h1, fv, pv.fs[f]);
    AppendCopyRefines(h1, fr1, o, fv, pv.fs[f], n);
    var (h2, fv1) := AppendCopy(h1, fv, n);
    var cs: Heap := [ListCell(ListOf(h1, fv) + [n])];
    SimExtend(h1, fr1, env, ev, R, {}, cs);
    AgreeExtend(h1, cs, Get(fr1, x));
    FullSimAgree(h1, h2, Get(fr1, x), pv);
    StoreRefines(h2, fr1, env, ev, R, o, x, f, Temp(fv1, true), V.AppendTo(pv.fs[f], n));
    KeepsThrough(h, h2, StoreField(h2, fr1, x, f, Temp(fv1, true)), V.WriteField(env, x, f, V.AppendTo(pv.fs[f], n)),
      o, ev, R);
  }

  lemma FieldAppendRefines(h: Heap, fr: Frame, env: V.Env, pr: Proc, o: Outside, K: set<nat>, p: nat, x: Slot, f: nat,
          e: IntExpr)
    requires Ready(h, fr, env, pr, o, K, p) && Site(pr, [Use(x), Use(x)] + IntEvents(e), K, p)
    ensures var q := p + 2 + |IntEvents(e)|;
            StmtMatches(h, ExecFieldAppend(h, fr, x, f, e), V.ExecFieldAppend(env, x, f, e), o, ProcEvents(pr), {q} + K)
  {
    hide ProcEvents, Occurs, InLoops, WellDeclared, NoDecl, SimAll, Disciplined, EvalInt, V.EvalInt, IntEvents, Grow,
         AppendCopy, StoreField, V.WriteField, Mutable;
    var ev := ProcEvents(pr);
    var q := p + 2 + |IntEvents(e)|;
    assert [Use(x), Use(x)] == [Use(x)] + [Use(x)];
    SiteParts(pr, [Use(x)] + [Use(x)], IntEvents(e), K, p);
    SiteParts(pr, [Use(x)], [Use(x)], K, p);
    NothingDeclared(pr, p);
    WholeHere(h, fr, env, pr, o, K, p, p, x);
    WholeHere(h, fr, env, pr, o, K, p, p + 1, x);
    IntHere(h, fr, env, pr, o, K, p, p + 2, e);
    SimLater(h, fr, env, ev, p, q, K, {});
    var v := Get(fr, x);
    if IsStruct(h, v) && f < |h[v.a].vals| && EvalInt(h, fr, e).Ok? {
      var n := EvalInt(h, fr, e).value;
      if Owned(fr, x) && FieldOwned(h[v.a], f) && IsList(h, h[v.a].vals[f]) {
        GrowFieldRefines(h, fr, env, ev, {q} + K, o, x, f, n);
      } else {
        CopyFieldRefines(h, fr, env, ev, {q} + K, o, x, f, n);
      }
    }
  }

  // ── `x.f[i] = v` ──

  function NestedEvents(x: Slot, f: nat, w: Slot, i: IntExpr, v: IntExpr): Events {
    [Use(x), Path(x, f), Decl(w)] + ([Use(w)] + IntEvents(i) + IntEvents(v)) + [Use(x), MoveUse(w)]
  }

  lemma NestedSites(pr: Proc, K: set<nat>, p: nat, x: Slot, f: nat, w: Slot, i: IntExpr, v: IntExpr)
    requires Site(pr, NestedEvents(x, f, w, i, v), K, p)
    ensures var q := p + 4 + |IntEvents(i)| + |IntEvents(v)|;
            && Site(pr, [Use(x)], K, p) && Site(pr, [Path(x, f)], K, p + 1) && Site(pr, [Decl(w)], K, p + 2)
            && Site(pr, [Use(w)] + IntEvents(i) + IntEvents(v), K, p + 3)
            && Site(pr, [Use(x)] + [MoveUse(w)], K, q)
            && |NestedEvents(x, f, w, i, v)| == q + 2 - p
    ensures x != w
  {
    hide ProcEvents, Occurs, InLoops, WellDeclared, IntEvents;
    var mid := [Use(w)] + IntEvents(i) + IntEvents(v);
    assert [Use(x), MoveUse(w)] == [Use(x)] + [MoveUse(w)];
    assert [Use(x), Path(x, f), Decl(w)] == [Use(x)] + [Path(x, f)] + [Decl(w)];
    SiteParts(pr, [Use(x), Path(x, f), Decl(w)] + mid, [Use(x), MoveUse(w)], K, p);
    SiteParts(pr, [Use(x), Path(x, f), Decl(w)], mid, K, p);
    SiteParts(pr, [Use(x)] + [Path(x, f)], [Decl(w)], K, p);
    SiteParts(pr, [Use(x)], [Path(x, f)], K, p);
    DeclaredOnce(ProcEvents(pr), p, x, w);
  }

  lemma DeclaredOnce(ev: Events, p: nat, x: Slot, w: Slot)
    requires WellDeclared(ev) && Occurs(ev, p, [Use(x)]) && Occurs(ev, p + 2, [Decl(w)])
    ensures x != w
  {
    OccursAt(ev, p, [Use(x)], 0);
    OccursAt(ev, p + 2, [Decl(w)], 0);
    assert DeclaredIn(ev, x, 0, p);
  }

  /** After the temporary takes the field, every slot, x and w included, still stands for its value. */
  lemma NestedTaken(h: Heap, fr: Frame, env: V.Env, pr: Proc, o: Outside, K: set<nat>, p: nat, x: Slot, f: nat, w: Slot,
          owned: bool)
    requires Ready(h, fr, env, pr, o, K, p) && x in o.escaping
    requires Site(pr, [Use(x)], K, p) && Site(pr, [Path(x, f)], K, p + 1) && Site(pr, [Decl(w)], K, p + 2)
    ensures FullSim(h, Get(fr, x), V.Get(env, x))
    ensures var r := TakeField(h, fr, x, f, false);
            var pv := V.Field(V.Get(env, x), f);
            && (match r case ArgErr(g) => pv == Err(g) case ArgOk(_, _, _) => pv.Ok?)
            && (r.ArgOk? ==>
                  && r.fr == fr && !r.t.owned && InFlight(r.h, fr, o, r.t, pv.value) && Keeps(h, r.h, o.kept)
                  && SimAll(r.h, Put(fr, w, Temp(r.t.v, owned)), if w < |env| then env[w := pv.value] else env,
                            ProcEvents(pr), {p + 3} + K, {}))
  {
    hide ProcEvents, NoDecl, SimAll, Disciplined, EvalInt, V.EvalInt, IntEvents, Decide;
    var ev := ProcEvents(pr);
    NothingDeclared(pr, p);
    WholeHere(h, fr, env, pr, o, K, p, p, x);
    SimLater(h, fr, env, ev, p, p + 1, K, {});
    OccursAt(ev, p + 1, [Path(x, f)], 0);
    PathStays(pr, p + 1);
    ValueRefines(h, fr, env, pr, o, K, p + 1, ArgField(x, f));
    var r := TakeField(h, fr, x, f, false);
    assert r == EvalArg(h, fr, pr.ints, ArgField(x, f), Moves(pr, p + 1), false);
    if r.ArgOk? {
      SimDeclare(r.h, fr, env, ev, K, p + 2, w);
      SlotsPaired(r.h, fr, o);
      BindSim(r.h, fr, env, ev, {p + 3} + K, w, Temp(r.t.v, owned), V.Field(V.Get(env, x), f).value);
    }
  }

  lemma PathStays(pr: Proc, q: nat)
    requires q < |ProcEvents(pr)| && ProcEvents(pr)[q].Path?
    ensures !Moves(pr, q)
  {
  }

  lemma SlotsPaired(h: Heap, fr: Frame, o: Outside)
    requires Disciplined(h, fr, o)
    ensures HeapOk(h) && |fr.slots| == |fr.own| && forall y: Slot :: ValOk(h, Get(fr, y))
  {
  }

  /** The field was not x's to hand over: the temporary shares it, and the write copies. */
  lemma NestedSharedRefines(h: Heap, fr: Frame, env: V.Env, pr: Proc, o: Outside, K: set<nat>, p: nat, x: Slot, f: nat,
          w: Slot, i: IntExpr, v: IntExpr)
    requires Ready(h, fr, env, pr, o, K, p) && x in o.escaping && w in o.escaping && !IsInt(pr.ints, w)
    requires Site(pr, NestedEvents(x, f, w, i, v), K, p)
    requires !(Owned(fr, x) && IsStruct(h, Get(fr, x)) && FieldOwned(h[Get(fr, x).a], f))
    ensures StmtMatches(h, ExecNestedSet(h, fr, pr, x, f, w, i, v, p), V.ExecNestedSet(env, pr.ints, x, f, w, i, v), o,
                        ProcEvents(pr), {p + |NestedEvents(x, f, w, i, v)|} + K)
  {
    hide ProcEvents, Occurs, InLoops, WellDeclared, NoDecl, SimAll, Disciplined, EvalInt, V.EvalInt, IntEvents,
         ExecIndexSet, V.ExecIndexSet, ExecFieldSet, V.ExecFieldSet, NestedEvents;
    var q := p + 4 + |IntEvents(i)| + |IntEvents(v)|;
    var ev := ProcEvents(pr);
    NestedSites(pr, K, p, x, f, w, i, v);
    NestedTaken(h, fr, env, pr, o, K, p, x, f, w, false);
    var r := TakeField(h, fr, x, f, false);
    if r.ArgOk? {
      var env1 := if w < |env| then env[w := V.Field(V.Get(env, x), f).value] else env;
      var fr1 := Put(fr, w, r.t);
      assert r.t == Temp(r.t.v, false);
      BindOk(r.h, fr, w, r.t, o);
      assert TakeNested(h, fr, x, f, w) == Norm(r.h, fr1);
      IndexSetRefines(r.h, fr1, env1, pr, o, K, p + 3, w, i, v);
      var out, pout := ExecIndexSet(r.h, fr1, w, i, v), V.ExecIndexSet(env1, w, i, v);
      if out.Norm? {
        assert StoredEvents(pr.ints, ArgLocal(w)) == [MoveUse(w)];
        FieldSetRefines(out.h, out.fr, pout.env, pr, o, K, q, x, f, ArgLocal(w));
        var out2, pout2 := ExecFieldSet(out.h, out.fr, pr, x, f, ArgLocal(w), q),
          V.ExecFieldSet(pout.env, pr.ints, x, f, ArgLocal(w));
        KeepsThrough(r.h, out.h, out2, pout2, o, ev, {q + 2} + K);
        KeepsThrough(h, r.h, out2, pout2, o, ev, {q + 2} + K);
      }
    }
  }

  /** The write of a nested write through an owned field, once index k and value n are known. */
  function NestedWritten(h: Heap, x: HVal, f: nat, k: nat, n: int, moved: bool): Heap
    requires IsStruct(h, x) && CellOkLite(h[x.a]) && f < |h[x.a].vals| && IsList(h, h[x.a].vals[f])
      && k < |h[h[x.a].vals[f].a].xs|
  {
    var b := h[x.a].vals[f].a;
    var h1 := if moved then h else h[x.a := GiveUp(h[x.a], f, false)];
    h1[b := ListCell(h[b].xs[k := n])]
  }

  predicate CellOkLite(c: Cell) {
    c.StructCell? ==> |c.own| == |c.vals|
  }

  ghost predicate OwnedField(h: Heap, fr: Frame, x: Slot, f: nat) {
    Owned(fr, x) && IsStruct(h, Get(fr, x)) && FieldOwned(h[Get(fr, x).a], f) && f < |h[Get(fr, x).a].vals|
  }

  /** Storing the temporary back: with its ownership, or sharing it. */
  lemma NestedStoreRun(h2: Heap, fr: Frame, pr: Proc, x: Slot, f: nat, w: Slot, fv: HVal, q: nat)
    requires |fr.slots| == |fr.own| && x != w && w < |fr.slots| && !IsInt(pr.ints, w)
    requires IsStruct(h2, Get(fr, x)) && f < |h2[Get(fr, x).a].vals| && Owned(fr, x) && IsList(h2, fv)
    ensures var m := Moves(pr, q + 1);
            var a := Get(fr, x).a;
            ExecFieldSet(h2, Put(fr, w, Temp(fv, true)), pr, x, f, ArgLocal(w), q)
            == Norm(h2[a := SetField(h2[a], f, Temp(fv, m))],
              Put(fr, w, if m then Temp(HNil, false) else Temp(fv, false)))
  {
    hide Moves, SetField;
    var m := Moves(pr, q + 1);
    var fr1 := Put(fr, w, Temp(fv, true));
    var fr3 := Put(fr, w, if m then Temp(HNil, false) else Temp(fv, false));
    assert Get(fr1, w) == fv && Owned(fr1, w) && Get(fr1, x) == Get(fr, x);
    assert Put(fr1, w, if m then Temp(HNil, false) else Temp(fv, false)) == fr3;
    assert EvalArg(h2, fr1, pr.ints, ArgLocal(w), m, false) == ArgOk(h2, fr3, Temp(fv, m));
    assert Owned(fr3, x) && Get(fr3, x) == Get(fr, x);
  }

  lemma NestedIndexRun(h1: Heap, fr1: Frame, w: Slot, i: IntExpr, v: IntExpr, k: int, n: int)
    requires IsList(h1, Get(fr1, w)) && Owned(fr1, w) && 0 <= k < |h1[Get(fr1, w).a].xs|
    requires EvalInt(h1, fr1, i) == Ok(k) && EvalInt(h1, fr1, v) == Ok(n)
    ensures ExecIndexSet(h1, fr1, w, i, v)
            == Norm(h1[Get(fr1, w).a := ListCell(h1[Get(fr1, w).a].xs[k := n])], fr1)
  {
    hide EvalInt;
  }

  lemma NestedTakeRun(h: Heap, fr: Frame, o: Outside, x: Slot, f: nat, w: Slot)
    requires Disciplined(h, fr, o) && OwnedField(h, fr, x, f)
    ensures var a := Get(fr, x).a;
            && CellOk(h, h[a]) && CellOkLite(h[a])
            && TakeField(h, fr, x, f, false) == ArgOk(h[a := GiveUp(h[a], f, false)], fr, Temp(h[a].vals[f], false))
            && TakeNested(h, fr, x, f, w) == Norm(h[a := GiveUp(h[a], f, false)], Put(fr, w, Temp(h[a].vals[f], true)))
            && |fr.slots| == |fr.own|
  {
    assert CellOk(h, h[Get(fr, x).a]);
  }

  /** What the engine computes when the field was x's to hand over. */
  lemma NestedOwnedRun(h: Heap, fr: Frame, pr: Proc, o: Outside, x: Slot, f: nat, w: Slot, i: IntExpr, v: IntExpr,
          p: nat, k: int, n: int)
    requires Disciplined(h, fr, o) && OwnedField(h, fr, x, f) && x != w && w < |fr.slots| && !IsInt(pr.ints, w)
    requires IsList(h, h[Get(fr, x).a].vals[f]) && 0 <= k < |h[h[Get(fr, x).a].vals[f].a].xs|
    requires var r := TakeField(h, fr, x, f, false);
             var fr1 := Put(fr, w, Temp(r.t.v, true));
             r.ArgOk? && EvalInt(r.h, fr1, i) == Ok(k) && EvalInt(r.h, fr1, v) == Ok(n)
    ensures var m := Moves(pr, p + 4 + |IntEvents(i)| + |IntEvents(v)| + 1);
            var fv := h[Get(fr, x).a].vals[f];
            && CellOkLite(h[Get(fr, x).a])
            && ExecNestedSet(h, fr, pr, x, f, w, i, v, p)
               == Norm(NestedWritten(h, Get(fr, x), f, k, n, m),
                 Put(fr, w, if m then Temp(HNil, false) else Temp(fv, false)))
  {
    hide Disciplined, EvalInt, Moves, IntEvents, ExecFieldSet, ExecIndexSet, TakeNested, TakeField, SetField, CellOk;
    var a := Get(fr, x).a;
    var c := h[a];
    NestedTakeRun(h, fr, o, x, f, w);
    var fv := c.vals[f];
    var b := fv.a;
    var h1 := h[a := GiveUp(c, f, false)];
    var fr1 := Put(fr, w, Temp(fv, true));
    assert a != b && h1[b] == h[b] && Get(fr1, w) == fv && Owned(fr1, w);
    NestedIndexRun(h1, fr1, w, i, v, k, n);
    var h2 := h1[b := ListCell(h[b].xs[k := n])];
    var q := p + 4 + |IntEvents(i)| + |IntEvents(v)|;
    NestedStoreRun(h2, fr, pr, x, f, w, fv, q);
    GiveBack(h, c, f, Moves(pr, q + 1));
    Rewritten(h, a, b, GiveUp(c, f, false), ListCell(h[b].xs[k := n]));
    hide GiveUp, OwnedField;
  }

  lemma Rewritten(h: Heap, a: Addr, b: Addr, g: Cell, l: Cell)
    requires a < |h| && b < |h| && a != b
    ensures h[a := g][b := l][a] == g
    ensures h[a := g][b := l][a := h[a]] == h[b := l]
    ensures h[a := g][b := l][a := g] == h[a := g][b := l]
  {
  }

  /** A field given up and stored again is as it was, its own bit set or not. */
  lemma GiveBack(h: Heap, c: Cell, f: nat, m: bool)
    requires c.StructCell? && CellOk(h, c) && FieldOwned(c, f) && f < |c.vals|
    ensures SetField(GiveUp(c, f, false), f, Temp(c.vals[f], m)) == if m then c else GiveUp(c, f, false)
  {
    assert OwnAt(c, f) && !MovedAt(c, f);
  }

  /** The temporary's ownership came back with the store: only the list changed. */
  lemma NestedMovedRefines(h: Heap, fr: Frame, env: V.Env, pr: Proc, o: Outside, K: set<nat>, p: nat, q: nat, x: Slot,
          f: nat, w: Slot, xs: seq<int>)
    requires Ready(h, fr, env, pr, o, K, p) && OwnedField(h, fr, x, f) && x != w
    requires FullSim(h, Get(fr, x), V.Get(env, x))
    requires IsList(h, h[Get(fr, x).a].vals[f]) && h[Get(fr, x).a].vals[f].a != EMPTY
    requires SimAll(h, fr, env, ProcEvents(pr), {q} + K, {w})
    requires forall r <- {q} + K :: !LiveAt(ProcEvents(pr), w, r)
    ensures var b := h[Get(fr, x).a].vals[f].a;
            var fr' := Put(fr, w, Temp(HNil, false));
            var env1 := if w < |env| then env[w := V.VList(xs)] else env;
            && x < |env| && env[x].VStruct?
            && Disciplined(h[b := ListCell(xs)], fr', o) && Keeps(h, h[b := ListCell(xs)], o.kept)
            && SimAll(h[b := ListCell(xs)], fr', env1[x := V.VStruct(env1[x].fs[f := V.VList(xs)])], ProcEvents(pr),
              {q} + K, {})
  {
    hide ProcEvents;
    var fr' := Put(fr, w, Temp(HNil, false));
    var env1 := if w < |env| then env[w := V.VList(xs)] else env;
    EmptyOk(h, fr, w, o);
    forall y: Slot ensures Fit(h, Get(fr', y), V.Get(env1, y), ProcEvents(pr), y, {q} + K) {
      if y == w { NotLiveFit(h, Get(fr', w), V.Get(env1, w), ProcEvents(pr), w, {q} + K); }
      else { assert Get(fr', y) == Get(fr, y) && V.Get(env1, y) == V.Get(env, y); }
    }
    FieldListSim(h, fr', env1, ProcEvents(pr), {q} + K, o, x, f, xs);
  }

  /** The store shared the temporary: x's field and w hold the rewritten list together. */
  lemma NestedKeptRefines(h: Heap, fr: Frame, env: V.Env, ev: Events, R: set<nat>, o: Outside, x: Slot, f: nat, w: Slot,
          xs: seq<int>, env1: V.Env)
    requires Disciplined(h, fr, o) && OwnedField(h, fr, x, f) && x != w && x < |env| == |env1|
    requires IsList(h, h[Get(fr, x).a].vals[f]) && h[Get(fr, x).a].vals[f].a != EMPTY
    requires CellOkLite(h[Get(fr, x).a]) && FullSim(h, Get(fr, x), V.Get(env, x))
    requires env1 == if w < |env| then env[w := V.Get(env, x).fs[f]] else env
    requires var h1 := h[Get(fr, x).a := GiveUp(h[Get(fr, x).a], f, false)];
             var t := Temp(h[Get(fr, x).a].vals[f], false);
             InFlight(h1, fr, o, t, V.Get(env, x).fs[f]) && SimAll(h1, Put(fr, w, t), env1, ev, R, {})
    ensures var b := h[Get(fr, x).a].vals[f].a;
            var h1 := h[Get(fr, x).a := GiveUp(h[Get(fr, x).a], f, false)];
            var fr' := Put(fr, w, Temp(HRef(b), false));
            var h' := h1[b := ListCell(xs)];
            var env2 := if w < |env| then env1[w := V.VList(xs)] else env1;
            && Disciplined(h', fr', o) && Keeps(h, h', o.kept)
            && SimAll(h', fr', env2[x := V.VStruct(env2[x].fs[f := V.VList(xs)])], ev, R, {})
  {
    var a := Get(fr, x).a;
    var c := h[a];
    var b := c.vals[f].a;
    var h1 := h[a := GiveUp(c, f, false)];
    var fr' := Put(fr, w, Temp(HRef(b), false));
    var h' := h1[b := ListCell(xs)];
    var env2 := if w < |env| then env1[w := V.VList(xs)] else env1;
    var env3 := env2[x := V.VStruct(env2[x].fs[f := V.VList(xs)])];
    assert CellOk(h, c) && FieldOk(h, c.vals[f]) && a != b;
    FieldListAlone(h, fr, o, x, f);
    BindOk(h1, fr, w, Temp(HRef(b), false), o);
    WriteListOk(h1, fr', b, xs, o);
    assert Exclusive(h, fr, o.kept, x) && Owns(h, Get(fr, x), a);
    forall y: Slot
      ensures Fit(h', Get(fr', y), V.Get(env3, y), ev, y, R)
    {
      if y == x {
        forall k: nat | k < |c.vals| ensures SimField(h', c.vals[k], env3[x].fs[k]) {
          assert !MovedIn(h, Get(fr, x), k) && FieldOk(h, c.vals[k]);
          assert k != f ==> !HoldsAt(c, k, b);
        }
        forall k: nat ensures !MovedIn(h', Get(fr, x), k) { assert !MovedIn(h, Get(fr, x), k); }
        FullFit(h', Get(fr', x), V.Get(env3, x), ev, x, R);
      } else if y == w && w < |fr.slots| {
        FullFit(h', Get(fr', w), V.Get(env3, w), ev, w, R);
      } else {
        GiveUpShrinks(h, a, f, false, Get(fr, y));
        assert Get(fr', y) == Get(fr, y) && !Reaches(h1, Get(fr, y), b);
        AgreeWrite(h1, b, ListCell(xs), Get(fr, y));
        FitAgree(h1, h', Get(fr, y), V.Get(env1, y), ev, y, R);
      }
    }
  }

  lemma ReadsSite(pr: Proc, K: set<nat>, p: nat, x: Slot, i: IntExpr, v: IntExpr)
    requires Site(pr, [Use(x)] + IntEvents(i) + IntEvents(v), K, p)
    ensures NoDecl(ProcEvents(pr), p, p + 1 + |IntEvents(i)| + |IntEvents(v)|)
    ensures Site(pr, IntEvents(i), K, p + 1) && Site(pr, IntEvents(v), K, p + 1 + |IntEvents(i)|)
  {
    hide ProcEvents, InLoops, WellDeclared, IntEvents;
    IntEventsRead(i);
    IntEventsRead(v);
    ReadsNoDecl(ProcEvents(pr), p, [Use(x)] + IntEvents(i) + IntEvents(v));
    SiteParts(pr, [Use(x)] + IntEvents(i), IntEvents(v), K, p);
    SiteParts(pr, [Use(x)], IntEvents(i), K, p);
  }

  /** Index and value mean the same, evaluated while x's field and w hold the list together. */
  lemma NestedInts(h: Heap, fr: Frame, env: V.Env, pr: Proc, K: set<nat>, p: nat, w: Slot, i: IntExpr, v: IntExpr)
    requires SimAll(h, fr, env, ProcEvents(pr), {p} + K, {})
    requires Site(pr, [Use(w)] + IntEvents(i) + IntEvents(v), K, p)
    ensures EvalInt(h, fr, i) == V.EvalInt(env, i) && EvalInt(h, fr, v) == V.EvalInt(env, v)
    ensures NoDecl(ProcEvents(pr), p, p + 1 + |IntEvents(i)| + |IntEvents(v)|)
  {
    hide ProcEvents, InLoops, SimAll, Occurs, IntEvents, EvalInt, V.EvalInt, WellDeclared;
    ReadsSite(pr, K, p, w, i, v);
    EvalIntSame(h, fr, env, ProcEvents(pr), {p} + K, {}, p, p + 1, i);
    EvalIntSame(h, fr, env, ProcEvents(pr), {p} + K, {}, p, p + 1 + |IntEvents(i)|, v);
  }

  lemma OccursEnd(ev: Events, p: nat, es: Events)
    requires Occurs(ev, p, es)
    ensures p + |es| <= |ev|
  {
  }

  /** From the nested write's start to its end, only w was declared. */
  lemma NestedLater(h: Heap, fr: Frame, env: V.Env, pr: Proc, K: set<nat>, p: nat, x: Slot, f: nat, w: Slot, i: IntExpr,
          v: IntExpr)
    requires SimAll(h, fr, env, ProcEvents(pr), {p} + K, {}) && Site(pr, NestedEvents(x, f, w, i, v), K, p)
    ensures var q := p + |NestedEvents(x, f, w, i, v)|;
            && SimAll(h, fr, env, ProcEvents(pr), {q} + K, {w})
            && NoDecl(ProcEvents(pr), p + 3, q)
            && (Moves(pr, q - 1) ==> forall r <- {q} + K :: !LiveAt(ProcEvents(pr), w, r))
  {
    hide ProcEvents, InLoops, Decide, SimAll, IntEvents, Occurs, NestedEvents, WellDeclared;
    var ev := ProcEvents(pr);
    var q := p + |NestedEvents(x, f, w, i, v)|;
    NestedSites(pr, K, p, x, f, w, i, v);
    OccursAt(ev, p, [Use(x)], 0);
    OccursAt(ev, p + 1, [Path(x, f)], 0);
    SimLater(h, fr, env, ev, p, p + 2, K, {});
    SimDeclare(h, fr, env, ev, K, p + 2, w);
    ReadsSite(pr, K, p + 3, w, i, v);
    SiteParts(pr, [Use(x)], [MoveUse(w)], K, q - 2);
    OccursAt(ev, q - 2, [Use(x)], 0);
    OccursAt(ev, q - 1, [MoveUse(w)], 0);
    OccursEnd(ev, q - 1, [MoveUse(w)]);
    SimLater(h, fr, env, ev, p + 3, q, K, {w});
    if Moves(pr, q - 1) {
      forall r | r in {q} + K ensures !LiveAt(ev, w, r) {
        LocalMoveDead(pr, K, q - 1, q, q - 1, r);
      }
    }
  }

  /** The state after the take: the temporary owns the field's list. */
  lemma NestedOwnedTake(h: Heap, fr: Frame, env: V.Env, pr: Proc, o: Outside, K: set<nat>, p: nat, x: Slot, f: nat,
          w: Slot, i: IntExpr, v: IntExpr)
    requires Ready(h, fr, env, pr, o, K, p) && x in o.escaping
    requires Site(pr, NestedEvents(x, f, w, i, v), K, p) && OwnedField(h, fr, x, f)
    ensures x != w && |env| == |fr.slots| && x < |env| && CellOkLite(h[Get(fr, x).a]) && HeapOk(h)
    ensures FullSim(h, Get(fr, x), V.Get(env, x)) && V.Field(env[x], f).Ok?
    ensures var fv := h[Get(fr, x).a].vals[f];
            var h1 := h[Get(fr, x).a := GiveUp(h[Get(fr, x).a], f, false)];
            var pv := V.Field(env[x], f).value;
            var env1 := if w < |env| then env[w := pv] else env;
            var fr1 := Put(fr, w, Temp(fv, true));
            && TakeNested(h, fr, x, f, w) == Norm(h1, fr1)
            && TakeField(h, fr, x, f, false) == ArgOk(h1, fr, Temp(fv, false))
            && InFlight(h1, fr, o, Temp(fv, false), pv)
            && SimAll(h1, Put(fr, w, Temp(fv, false)), env1, ProcEvents(pr), {p + 3} + K, {})
            && EvalInt(h1, fr1, i) == V.EvalInt(env1, i) && EvalInt(h1, fr1, v) == V.EvalInt(env1, v)
  {
    hide ProcEvents, Occurs, InLoops, WellDeclared, NoDecl, Disciplined, EvalInt, V.EvalInt, IntEvents, NestedEvents,
         Flight, Free;
    NestedSites(pr, K, p, x, f, w, i, v);
    NestedTaken(h, fr, env, pr, o, K, p, x, f, w, true);
    NestedTaken(h, fr, env, pr, o, K, p, x, f, w, false);
    SlotsPaired(h, fr, o);
    assert CellOk(h, h[Get(fr, x).a]);
    var pv := V.Field(V.Get(env, x), f).value;
    NestedInts(TakeField(h, fr, x, f, false).h, Put(fr, w, Temp(h[Get(fr, x).a].vals[f], true)),
               if w < |env| then env[w := pv] else env, pr, K, p + 3, w, i, v);
  }

  /** Both machines refuse the same index writes, for the same reason. */
  lemma NestedOwnedFails(h: Heap, h1: Heap, fr: Frame, env: V.Env, pr: Proc, x: Slot, f: nat, w: Slot, i: IntExpr,
          v: IntExpr, p: nat, fv: HVal, pv: V.Val)
    requires TakeNested(h, fr, x, f, w) == Norm(h1, Put(fr, w, Temp(fv, true))) && |fr.slots| == |fr.own| == |env|
    requires V.Field(V.Get(env, x), f) == Ok(pv) && FullSim(h1, fv, pv)
    requires var env1 := if w < |env| then env[w := pv] else env;
             var fr1 := Put(fr, w, Temp(fv, true));
             && EvalInt(h1, fr1, i) == V.EvalInt(env1, i) && EvalInt(h1, fr1, v) == V.EvalInt(env1, v)
             && (w >= |fr.slots| || !IsList(h1, fv) || EvalInt(h1, fr1, i).Err? || EvalInt(h1, fr1, v).Err?
                 || !(0 <= EvalInt(h1, fr1, i).value < |h1[fv.a].xs|))
    ensures ExecNestedSet(h, fr, pr, x, f, w, i, v, p).Fail?
    ensures V.ExecNestedSet(env, pr.ints, x, f, w, i, v) == V.PFail(ExecNestedSet(h, fr, pr, x, f, w, i, v, p).fault)
  {
    hide ProcEvents, EvalInt, V.EvalInt, TakeNested, Mutable, ExecFieldSet, V.ExecFieldSet;
    var fr1 := Put(fr, w, Temp(fv, true));
    var env1 := if w < |env| then env[w := pv] else env;
    assert w < |fr.slots| ==> Get(fr1, w) == fv && V.Get(env1, w) == pv;
    assert w >= |fr.slots| ==> Get(fr1, w) == HNil && V.Get(env1, w) == V.VNil;
    assert IsList(h1, fv) <==> pv.VList?;
    assert ExecIndexSet(h1, fr1, w, i, v).Fail?;
    assert V.ExecIndexSet(env1, w, i, v) == V.PFail(ExecIndexSet(h1, fr1, w, i, v).fault);
  }

  lemma NestedOwnedRefines(h: Heap, fr: Frame, env: V.Env, pr: Proc, o: Outside, K: set<nat>, p: nat, x: Slot, f: nat,
          w: Slot, i: IntExpr, v: IntExpr)
    requires Ready(h, fr, env, pr, o, K, p) && x in o.escaping && w in o.escaping && !IsInt(pr.ints, w)
    requires Site(pr, NestedEvents(x, f, w, i, v), K, p) && OwnedField(h, fr, x, f)
    ensures StmtMatches(h, ExecNestedSet(h, fr, pr, x, f, w, i, v, p), V.ExecNestedSet(env, pr.ints, x, f, w, i, v), o,
                        ProcEvents(pr), {p + |NestedEvents(x, f, w, i, v)|} + K)
  {
    hide ProcEvents, Occurs, InLoops, WellDeclared, NoDecl, SimAll, Disciplined, EvalInt, V.EvalInt, IntEvents,
         NestedEvents, NestedWritten, Moves, Keeps, Flight, Free, ExecNestedSet, V.ExecNestedSet, TakeNested, TakeField;
    NestedOwnedTake(h, fr, env, pr, o, K, p, x, f, w, i, v);
    NestedLater(h, fr, env, pr, K, p, x, f, w, i, v);
    NestedSites(pr, K, p, x, f, w, i, v);
    var fv := h[Get(fr, x).a].vals[f];
    var h1 := h[Get(fr, x).a := GiveUp(h[Get(fr, x).a], f, false)];
    var pv := V.Field(env[x], f).value;
    var fr1 := Put(fr, w, Temp(fv, true));
    SlotsPaired(h, fr, o);
    assert CellOk(h, h[Get(fr, x).a]) && FieldOk(h, fv);
    assert IsList(h1, fv) <==> IsList(h, fv);
    assert IsList(h, fv) ==> h1[fv.a] == h[fv.a];
    if w < |fr.slots| && IsList(h, fv) && EvalInt(h1, fr1, i).Ok? && EvalInt(h1, fr1, v).Ok?
       && 0 <= EvalInt(h1, fr1, i).value < |h[fv.a].xs| {
      var k, n := EvalInt(h1, fr1, i).value, EvalInt(h1, fr1, v).value;
      assert pv == V.VList(h[fv.a].xs);
      NestedOwnedRun(h, fr, pr, o, x, f, w, i, v, p, k, n);
      NestedPure(env, pr.ints, x, f, w, i, v, k, n);
      NestedEnds(h, fr, env, pr, o, K, p, p + |NestedEvents(x, f, w, i, v)|, x, f, w, k, n);
    } else {
      NestedOwnedFails(h, h1, fr, env, pr, x, f, w, i, v, p, fv, pv);
    }
  }

  lemma NestedPure(env: V.Env, ints: seq<bool>, x: Slot, f: nat, w: Slot, i: IntExpr, v: IntExpr, k: nat, n: int)
    requires x < |env| && w < |env| && x != w && !IsInt(ints, w) && env[x].VStruct? && f < |env[x].fs|
      && env[x].fs[f].VList?
    requires var env1 := env[w := env[x].fs[f]];
             V.EvalInt(env1, i) == Ok(k) && V.EvalInt(env1, v) == Ok(n) && k < |env[x].fs[f].xs|
    ensures var l := V.VList(env[x].fs[f].xs[k := n]);
            V.ExecNestedSet(env, ints, x, f, w, i, v) == V.PNorm(env[w := l][x := V.VStruct(env[x].fs[f := l])])
  {
    var l := V.VList(env[x].fs[f].xs[k := n]);
    assert env[w := env[x].fs[f]][w := l] == env[w := l];
  }

  lemma NestedEnds(h: Heap, fr: Frame, env: V.Env, pr: Proc, o: Outside, K: set<nat>, p: nat, q: nat, x: Slot, f: nat,
          w: Slot, k: nat, n: int)
    requires Ready(h, fr, env, pr, o, K, p) && OwnedField(h, fr, x, f) && x != w && w < |fr.slots| == |env| && x < |env|
    requires CellOkLite(h[Get(fr, x).a]) && FullSim(h, Get(fr, x), V.Get(env, x))
    requires IsList(h, h[Get(fr, x).a].vals[f]) && k < |h[h[Get(fr, x).a].vals[f].a].xs|
    requires SimAll(h, fr, env, ProcEvents(pr), {q} + K, {w}) && p + 3 <= q && NoDecl(ProcEvents(pr), p + 3, q)
    requires Moves(pr, q - 1) ==> forall r <- {q} + K :: !LiveAt(ProcEvents(pr), w, r)
    requires var fv := h[Get(fr, x).a].vals[f];
             var h1 := h[Get(fr, x).a := GiveUp(h[Get(fr, x).a], f, false)];
             var pv := V.Field(V.Get(env, x), f);
             pv.Ok? && InFlight(h1, fr, o, Temp(fv, false), pv.value)
             && SimAll(h1, Put(fr, w, Temp(fv, false)), env[w := pv.value], ProcEvents(pr), {p + 3} + K, {})
    ensures var fv := h[Get(fr, x).a].vals[f];
            var m := Moves(pr, q - 1);
            && env[x].VStruct? && f < |env[x].fs| && env[x].fs[f].VList? && k < |env[x].fs[f].xs|
            && var l := V.VList(env[x].fs[f].xs[k := n]);
            StmtMatches(h, Norm(NestedWritten(h, Get(fr, x), f, k, n, m),
              Put(fr, w, if m then Temp(HNil, false) else Temp(fv, false))),
                        V.PNorm(env[w := l][x := V.VStruct(env[x].fs[f := l])]), o, ProcEvents(pr), {q} + K)
  {
    hide ProcEvents, Moves, NoDecl, Disciplined, SimAll;
    var fv := h[Get(fr, x).a].vals[f];
    var h1 := h[Get(fr, x).a := GiveUp(h[Get(fr, x).a], f, false)];
    SlotsPaired(h, fr, o);
    assert CellOk(h, h[Get(fr, x).a]);
    assert !MovedIn(h, Get(fr, x), f) && SimField(h, fv, env[x].fs[f]);
    assert fv.a != EMPTY && fv.a != Get(fr, x).a && h1[fv.a] == h[fv.a];
    var xs := h[fv.a].xs[k := n];
    var l := V.VList(xs);
    if Moves(pr, q - 1) {
      NestedMovedRefines(h, fr, env, pr, o, K, p, q, x, f, w, xs);
    } else {
      SimLater(h1, Put(fr, w, Temp(fv, false)), env[w := env[x].fs[f]], ProcEvents(pr), p + 3, q, K, {});
      NestedKeptRefines(h, fr, env, ProcEvents(pr), {q} + K, o, x, f, w, xs, env[w := env[x].fs[f]]);
      assert env[w := env[x].fs[f]][w := l] == env[w := l];
    }
  }

  lemma NestedSetRefines(h: Heap, fr: Frame, env: V.Env, pr: Proc, o: Outside, K: set<nat>, p: nat, x: Slot, f: nat,
          w: Slot, i: IntExpr, v: IntExpr)
    requires Ready(h, fr, env, pr, o, K, p) && x in o.escaping && w in o.escaping && !IsInt(pr.ints, w)
    requires Site(pr, NestedEvents(x, f, w, i, v), K, p)
    ensures StmtMatches(h, ExecNestedSet(h, fr, pr, x, f, w, i, v, p), V.ExecNestedSet(env, pr.ints, x, f, w, i, v), o,
                        ProcEvents(pr), {p + |NestedEvents(x, f, w, i, v)|} + K)
  {
    hide ExecNestedSet, V.ExecNestedSet, ProcEvents, NestedEvents, Site;
    if OwnedField(h, fr, x, f) {
      NestedOwnedRefines(h, fr, env, pr, o, K, p, x, f, w, i, v);
    } else {
      if IsStruct(h, Get(fr, x)) && FieldOwned(h[Get(fr, x).a], f) { OwnBitInRange(h, fr, o, x, f); }
      NestedSharedRefines(h, fr, env, pr, o, K, p, x, f, w, i, v);
    }
  }

  lemma OwnBitInRange(h: Heap, fr: Frame, o: Outside, x: Slot, f: nat)
    requires Disciplined(h, fr, o) && IsStruct(h, Get(fr, x)) && FieldOwned(h[Get(fr, x).a], f)
    ensures f < |h[Get(fr, x).a].vals|
  {
    assert CellOk(h, h[Get(fr, x).a]);
  }
}
