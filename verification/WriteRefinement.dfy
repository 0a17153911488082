/** In-place writes: after copying what is not owned, the engine's write is the language's. */
module WriteRefinement {
  import opened ProcSyntax
  import V = ValueMachine
  import opened MoveAnalysis
  import opened OwnershipMachine
  import opened Ownership
  import opened OwnershipUpdates
  import opened Simulation
  import opened RhsRefinement

  /** Slot x changes, every other slot sees the heap as before. */
  ghost predicate OnlySlot(h: Heap, fr: Frame, h': Heap, fr': Frame, x: Slot) {
    && |fr'.slots| == |fr.slots|
    && forall y: Slot :: y != x ==> Get(fr', y) == Get(fr, y) && ValOk(h, Get(fr, y)) && Agree(h, h', Get(fr, y))
  }

  lemma SimReplace(h: Heap, fr: Frame, env: V.Env, ev: Events, R: set<nat>, h': Heap, fr': Frame, env': V.Env, x: Slot)
    requires SimAll(h, fr, env, ev, R, {}) && HeapOk(h) && OnlySlot(h, fr, h', fr', x)
    requires |env'| == |env| && forall y: Slot :: y != x ==> V.Get(env', y) == V.Get(env, y)
    requires FullSim(h', Get(fr', x), V.Get(env', x))
    ensures SimAll(h', fr', env', ev, R, {})
  {
    forall y: Slot
      ensures Fit(h', Get(fr', y), V.Get(env', y), ev, y, R)
    {
      if y == x {
        FullFit(h', Get(fr', x), V.Get(env', x), ev, x, R);
      } else {
        FitAgree(h, h', Get(fr, y), V.Get(env, y), ev, y, R);
      }
    }
  }

  // ── copy before write ──

  /** The copy made by `Mutable` when slot x does not own its value. */
  lemma CloneFlight(h: Heap, fr: Frame, o: Outside, x: Slot)
    requires Disciplined(h, fr, o) && Get(fr, x).HRef? && !Owned(fr, x)
    ensures var c := CloneCell(h[Get(fr, x).a]);
            var h' := h + [c];
            && Disciplined(h', fr, o) && Keeps(h, h', o.kept)
            && Flight(h', fr, o.kept, Temp(HRef(|h|), true))
            && (x in o.escaping ==> Free(h', HRef(|h|), o.lent))
  {
    var v := Get(fr, x);
    var c0, c := h[v.a], CloneCell(h[v.a]);
    var h' := h + [c];
    assert CellOk(h, c0);
    assert forall k: nat :: !OwnAt(c, k);
    assert forall k: nat, b: Addr :: HoldsAt(c, k, b) <==> HoldsAt(c0, k, b);
    assert forall k: nat :: MovedAt(c, k) <==> MovedAt(c0, k);
    assert CellOk(h, c);
    AllocOk(h, fr, c, o);
    forall j: Slot
      ensures forall b: Addr :: Reaches(h', Get(fr, j), b) <==> Reaches(h, Get(fr, j), b)
      ensures forall b: Addr :: Owns(h', Get(fr, j), b) <==> Owns(h, Get(fr, j), b)
      ensures !Reaches(h, Get(fr, j), |h|)
    {
      AgreeExtend(h, [c], Get(fr, j));
      AgreeSame(h, h', Get(fr, j));
      FieldsBelow(h, Get(fr, j));
    }
    forall b: Addr | Reaches(h', HRef(|h|), b)
      ensures b != |h| ==> Reaches(h, v, b)
      ensures forall j: Slot :: Owned(fr, j) ==> !Owns(h', Get(fr, j), b)
    {
      if b != |h| { assert CellReaches(c, b); assert CellReaches(c0, b); }
      forall j: Slot | Owned(fr, j) ensures !Owns(h', Get(fr, j), b) {
        assert Exclusive(h, fr, o.kept, j);
        if b == |h| && Owns(h', Get(fr, j), b) { OwnsReaches(h', Get(fr, j), b); }
      }
    }
    if x in o.escaping { assert Free(h, v, o.lent); }
  }

  /** After `Mutable`, slot x owns a value equal to the one it held. */
  ghost predicate Writable(h: Heap, fr: Frame, h': Heap, fr': Frame, o: Outside, x: Slot) {
    var v, v' := Get(fr, x), Get(fr', x);
    && Disciplined(h', fr', o) && Keeps(h, h', o.kept) && OnlySlot(h, fr, h', fr', x)
    && Owned(fr', x) && v'.HRef? && v'.a < |h'| && v.HRef? && v.a < |h|
    && match h[v.a]
       case ListCell(xs) => h'[v'.a] == h[v.a] && (xs != [] ==> v'.a != EMPTY)
       case StructCell(vals, own, moved) =>
         h'[v'.a].StructCell? && h'[v'.a].vals == vals && h'[v'.a].moved == moved && v'.a != EMPTY
  }

  lemma MutableWritable(h: Heap, fr: Frame, o: Outside, x: Slot)
    requires Disciplined(h, fr, o) && Get(fr, x).HRef?
    ensures Get(fr, x).a < |h|
    ensures var (h', fr') := Mutable(h, fr, x);
            && Writable(h, fr, h', fr', o, x)
            && exists cs: Heap :: h' == h + cs
  {
    assert ValOk(h, Get(fr, x));
    var (h', fr') := Mutable(h, fr, x);
    var cs: Heap := if Owned(fr, x) then [] else [CloneCell(h[Get(fr, x).a])];
    assert h' == h + cs;
    forall y: Slot | y != x ensures Get(fr', y) == Get(fr, y) && Agree(h, h', Get(fr, y)) {
      AgreeExtend(h, cs, Get(fr, y));
    }
    if !Owned(fr, x) {
      CloneFlight(h, fr, o, x);
      BindOk(h', fr, x, Temp(HRef(|h|), true), o);
    }
  }

  /** The language's value of x survives the copy. */
  lemma MutableSim(h: Heap, fr: Frame, o: Outside, x: Slot, pv: V.Val)
    requires Disciplined(h, fr, o) && Get(fr, x).HRef? && FullSim(h, Get(fr, x), pv)
    ensures var (h', fr') := Mutable(h, fr, x); FullSim(h', Get(fr', x), pv)
  {
    MutableWritable(h, fr, o, x);
    var (h', fr') := Mutable(h, fr, x);
    var v := Get(fr, x);
    assert CellOk(h, h[v.a]);
    if IsStruct(h, v) {
      forall k: nat | k < |pv.fs|
        ensures SimField(h', h[v.a].vals[k], pv.fs[k])
      {
        assert !MovedIn(h, v, k);
        assert FieldOk(h, h[v.a].vals[k]);
      }
      forall k: nat ensures !MovedIn(h', Get(fr', x), k) { assert !MovedIn(h, v, k); }
    }
  }

  /** A value in flight stays in flight across the copy. */
  lemma MutableFlight(h: Heap, fr: Frame, o: Outside, x: Slot, t: Temp, pv: V.Val)
    requires InFlight(h, fr, o, t, pv) && Get(fr, x).HRef?
    ensures var (h', fr') := Mutable(h, fr, x); InFlight(h', fr', o, t, pv)
  {
    MutableWritable(h, fr, o, x);
    var (h', fr') := Mutable(h, fr, x);
    var cs: Heap :| h' == h + cs;
    AgreeExtend(h, cs, t.v);
    AgreeSame(h, h', t.v);
    FullSimAgree(h, h', t.v, pv);
    FieldsBelow(h, t.v);
    if !Owned(fr, x) {
      var v := Get(fr, x);
      var c0 := h[v.a];
      assert CellOk(h, c0);
      assert forall k: nat, b: Addr :: HoldsAt(CloneCell(c0), k, b) <==> HoldsAt(c0, k, b);
      assert forall k: nat :: MovedAt(CloneCell(c0), k) <==> MovedAt(c0, k);
      assert forall k: nat :: !OwnAt(CloneCell(c0), k);
      forall b: Addr | Reaches(h', HRef(|h|), b) && b != |h| ensures Reaches(h, v, b) {
        assert CellReaches(CloneCell(c0), b); assert CellReaches(c0, b);
      }
      assert forall b: Addr :: Owns(h', HRef(|h|), b) ==> b == |h|;
      forall j: Slot
        ensures j == x && x < |fr.slots| ==> Get(fr', j) == HRef(|h|)
        ensures j != x ==> Get(fr', j) == Get(fr, j) && (Owned(fr', j) ==> Owned(fr, j))
        ensures forall b: Addr :: j != x ==> (Reaches(h', Get(fr', j), b) <==> Reaches(h, Get(fr, j), b))
        ensures forall b: Addr :: j != x ==> (Owns(h', Get(fr', j), b) <==> Owns(h, Get(fr, j), b))
      {
        if j != x { AgreeSame(h, h', Get(fr, j)); }
      }
    } else {
      assert h' == h && fr' == fr;
    }
  }

  // ── writing a list element ──

  lemma AgreeTrans(h: Heap, h1: Heap, h2: Heap, v: HVal)
    requires Agree(h, h1, v) && Agree(h1, h2, v)
    ensures Agree(h, h2, v)
  {
  }

  /** `x[k] = n` once index and value are known. */
  lemma WriteIndexRefines(h: Heap, fr: Frame, env: V.Env, ev: Events, R: set<nat>, o: Outside, x: Slot, k: nat, n: int)
    requires Disciplined(h, fr, o) && SimAll(h, fr, env, ev, R, {})
    requires IsList(h, Get(fr, x)) && k < |h[Get(fr, x).a].xs| && Sim(h, Get(fr, x), V.Get(env, x))
    ensures var (h1, fr1) := Mutable(h, fr, x);
            var u := Get(fr1, x);
            && IsList(h1, u) && h1[u.a].xs == h[Get(fr, x).a].xs && x < |env|
            && var h2 := h1[u.a := ListCell(h1[u.a].xs[k := n])];
            && Disciplined(h2, fr1, o) && Keeps(h, h2, o.kept)
            && SimAll(h2, fr1, env[x := V.VList(V.Get(env, x).xs[k := n])], ev, R, {})
  {
    MutableWritable(h, fr, o, x);
    var (h1, fr1) := Mutable(h, fr, x);
    var u := Get(fr1, x);
    var xs := h1[u.a].xs[k := n];
    var h2 := h1[u.a := ListCell(xs)];
    assert Exclusive(h1, fr1, o.kept, x) && Owns(h1, u, u.a);
    WriteListOk(h1, fr1, u.a, xs, o);
    forall y: Slot | y != x ensures Get(fr1, y) == Get(fr, y) && Agree(h, h2, Get(fr, y)) {
      AgreeWrite(h1, u.a, ListCell(xs), Get(fr, y));
      AgreeTrans(h, h1, h2, Get(fr, y));
    }
    var env' := env[x := V.VList(V.Get(env, x).xs[k := n])];
    SimReplace(h, fr, env, ev, R, h2, fr1, env', x);
  }

  // ── writing a field ──

  /** Storing a value in flight into a struct slot x owns. */
  lemma SetFieldSim(h: Heap, fr: Frame, o: Outside, x: Slot, f: nat, t: Temp, pv: V.Val, sv: V.Val)
    requires InFlight(h, fr, o, t, pv) && !IsStruct(h, t.v)
    requires IsStruct(h, Get(fr, x)) && f < |h[Get(fr, x).a].vals| && FullSim(h, Get(fr, x), sv)
    ensures var a := Get(fr, x).a;
            FullSim(h[a := SetField(h[a], f, t)], Get(fr, x), V.VStruct(sv.fs[f := pv]))
  {
    var a := Get(fr, x).a;
    var c := h[a];
    var h' := h[a := SetField(c, f, t)];
    assert CellOk(h, c);
    forall k: nat | k < |sv.fs|
      ensures SimField(h', h'[a].vals[k], sv.fs[f := pv][k])
    {
      assert !MovedIn(h, Get(fr, x), k);
      if k != f { assert FieldOk(h, c.vals[k]); }
    }
    forall k: nat ensures !MovedIn(h', Get(fr, x), k) { assert !MovedIn(h, Get(fr, x), k); }
  }

  lemma StoreOwned(h: Heap, fr: Frame, env: V.Env, ev: Events, R: set<nat>, o: Outside, x: Slot, f: nat, t: Temp,
          pv: V.Val)
    requires InFlight(h, fr, o, t, pv) && !IsStruct(h, t.v) && SimAll(h, fr, env, ev, R, {}) && Owned(fr, x)
    requires IsStruct(h, Get(fr, x)) && f < |h[Get(fr, x).a].vals| && FullSim(h, Get(fr, x), V.Get(env, x))
    ensures x < |env|
    ensures var a := Get(fr, x).a;
            var h' := h[a := SetField(h[a], f, t)];
            && Disciplined(h', fr, o) && Keeps(h, h', o.kept)
            && SimAll(h', fr, env[x := V.VStruct(env[x].fs[f := pv])], ev, R, {})
  {
    var a := Get(fr, x).a;
    var h' := h[a := SetField(h[a], f, t)];
    assert Exclusive(h, fr, o.kept, x) && Owns(h, Get(fr, x), a);
    SetFieldOk(h, fr, x, f, t, o);
    SetFieldSim(h, fr, o, x, f, t, pv, V.Get(env, x));
    forall y: Slot | y != x ensures Agree(h, h', Get(fr, y)) {
      AgreeWrite(h, a, SetField(h[a], f, t), Get(fr, y));
    }
    SimReplace(h, fr, env, ev, R, h', fr, env[x := V.VStruct(env[x].fs[f := pv])], x);
  }

  /** The engine's outcome of a statement that cannot transfer control, against the language's. */
  ghost predicate StmtMatches(h: Heap, out: Out, pout: V.POut, o: Outside, ev: Events, R: set<nat>) {
    match out
    case Norm(h', fr') =>
      pout.PNorm? && Disciplined(h', fr', o) && Keeps(h, h', o.kept) && SimAll(h', fr', pout.env, ev, R, {})
    case Fail(f) => pout == V.PFail(f)
    case Timeout => pout == V.PTimeout
    case _ => false
  }

  lemma MutableSimAll(h: Heap, fr: Frame, env: V.Env, ev: Events, R: set<nat>, o: Outside, x: Slot)
    requires Disciplined(h, fr, o) && Get(fr, x).HRef? && SimAll(h, fr, env, ev, R, {})
    requires FullSim(h, Get(fr, x), V.Get(env, x))
    ensures var (h', fr') := Mutable(h, fr, x);
            SimAll(h', fr', env, ev, R, {}) && FullSim(h', Get(fr', x), V.Get(env, x)) && Writable(h, fr, h', fr', o, x)
  {
    MutableWritable(h, fr, o, x);
    MutableSim(h, fr, o, x, V.Get(env, x));
    var (h', fr') := Mutable(h, fr, x);
    SimReplace(h, fr, env, ev, R, h', fr', env, x);
  }

  lemma StoreRefines(h: Heap, fr: Frame, env: V.Env, ev: Events, R: set<nat>, o: Outside, x: Slot, f: nat, t: Temp,
          pv: V.Val)
    requires InFlight(h, fr, o, t, pv) && SimAll(h, fr, env, ev, R, {})
    requires !IsStruct(h, t.v) ==>
               IsStruct(h, Get(fr, x)) && f < |h[Get(fr, x).a].vals| && FullSim(h, Get(fr, x), V.Get(env, x))
    ensures StmtMatches(h, StoreField(h, fr, x, f, t), V.WriteField(env, x, f, pv), o, ev, R)
  {
    assert IsStruct(h, t.v) <==> pv.VStruct?;
    if !IsStruct(h, t.v) {
      MutableSimAll(h, fr, env, ev, R, o, x);
      MutableFlight(h, fr, o, x, t, pv);
      var (h1, fr1) := Mutable(h, fr, x);
      StoreOwned(h1, fr1, env, ev, R, o, x, f, t, pv);
    }
  }
}
