/** Right-hand sides that make no call: the engine's value in flight stands for the language's, and it
  * arrives owned only when nobody else can reach it. New lists, struct literals with their fields
  * handed over or shared, and the append that copies are done here; appends in place and returned
  * values build on them.
  */
module RhsRefinement {
  import opened ProcSyntax
  import V = ValueMachine
  import opened MoveAnalysis
  import opened OwnershipMachine
  import opened Ownership
  import opened OwnershipUpdates
  import opened Simulation
  import opened Arguments
  import opened ArgumentRefinement

  /** A value in flight that may be bound anywhere and stands for pv. */
  ghost predicate InFlight(h: Heap, fr: Frame, o: Outside, t: Temp, pv: V.Val) {
    Disciplined(h, fr, o) && Flight(h, fr, o.kept, t) && Free(h, t.v, o.lent) && FullSim(h, t.v, pv)
  }

  ghost predicate RhsMatches(h: Heap, r: RhsOut, c: V.CallOut, o: Outside) {
    match r
    case RhsErr(f) => c == V.Failed(f)
    case RhsTimeout => c == V.OutOfFuel
    case RhsOk(h', fr', t) => c.Returned? && InFlight(h', fr', o, t, c.v) && Keeps(h, h', o.kept)
  }

  lemma WaitingFlight(h: Heap, fr: Frame, o: Outside, t: Temp, pv: V.Val, args: seq<Arg>)
    requires Waiting(h, fr, o, [t], [pv], args, NeverBorrows)
    ensures InFlight(h, fr, o, t, pv)
  {
    assert [t][0] == t;
    assert FullSim(h, [t][0].v, [pv][0]);
    if t.owned { assert Alone(h, fr, o.kept, [t], 0); }
    NoLoans(h, fr, [t], args);
    forall b: Addr, j: Slot | Reaches(h, t.v, b) && Owned(fr, j)
      ensures !Owns(h, Get(fr, j), b)
    {
      assert Reaches(h, [t][0].v, b);
    }
  }

  /** With no borrowing callee, nothing a slot owns waits. */
  lemma NoLoans(h: Heap, fr: Frame, ts: seq<Temp>, args: seq<Arg>)
    requires LoansOk(h, fr, ts, args, NeverBorrows)
    ensures forall k: nat, b: Addr, j: Slot ::
              k < |ts| && Owned(fr, j) && Reaches(h, ts[k].v, b) ==> !Owns(h, Get(fr, j), b)
  {
  }

  lemma NothingWaiting(h: Heap, fr: Frame, o: Outside, args: seq<Arg>, borrow: nat -> bool)
    requires Disciplined(h, fr, o)
    ensures Waiting(h, fr, o, [], [], args, borrow)
  {
  }

  /** New cells disturb nothing. */
  lemma SimExtend(h: Heap, fr: Frame, env: V.Env, ev: Events, R: set<nat>, dead: set<Slot>, cs: Heap)
    requires HeapOk(h) && SimAll(h, fr, env, ev, R, dead) && forall y: Slot :: ValOk(h, Get(fr, y))
    ensures SimAll(h + cs, fr, env, ev, R, dead)
  {
    forall x: Slot | x !in dead
      ensures Fit(h + cs, Get(fr, x), V.Get(env, x), ev, x, R)
    {
      AgreeExtend(h, cs, Get(fr, x));
      FitAgree(h, h + cs, Get(fr, x), V.Get(env, x), ev, x, R);
    }
  }

  lemma NewListRefines(h: Heap, fr: Frame, o: Outside, xs: seq<int>)
    requires Disciplined(h, fr, o)
    ensures var (h', v) := NewList(h, xs);
            && InFlight(h', fr, o, Temp(v, true), V.VList(xs)) && Keeps(h, h', o.kept)
            && exists cs: Heap :: h' == h + cs
  {
    if xs == [] {
      PlainFlight(h, fr, o, Temp(HRef(EMPTY), true));
      assert h + [] == h;
    } else {
      FreshList(h, fr, xs, o, true);
    }
  }

  // ── struct literals ──

  lemma StructCellOk(h: Heap, ts: seq<Temp>)
    requires HeapOk(h) && Flat(h, ts) && forall k: nat :: k < |ts| ==> ValOk(h, ts[k].v)
    ensures CellOk(h, StructOf(ts))
    ensures forall k: nat, b: Addr :: HoldsAt(StructOf(ts), k, b) <==> k < |ts| && ts[k].v == HRef(b)
    ensures forall k: nat :: OwnAt(StructOf(ts), k) ==> k < |ts| && ts[k].owned
    ensures forall k: nat :: !MovedAt(StructOf(ts), k)
  {
    var c := StructOf(ts);
    forall k | 0 <= k < |c.vals|
      ensures FieldOk(h, c.vals[k])
    {
      assert ts[k] in ts;
    }
  }

  lemma StructFlight(h: Heap, fr: Frame, o: Outside, ts: seq<Temp>, args: seq<Arg>)
    requires Disciplined(h, fr, o) && TempsOk(h, fr, o, ts, args, NeverBorrows) && Flat(h, ts)
    ensures var h' := h + [StructOf(ts)];
            && Disciplined(h', fr, o) && Flight(h', fr, o.kept, Temp(HRef(|h|), true))
            && Free(h', HRef(|h|), o.lent) && Keeps(h, h', o.kept)
  {
    var c := StructOf(ts);
    var h' := h + [c];
    StructCellOk(h, ts);
    NoLoans(h, fr, ts, args);
    AllocOk(h, fr, c, o);
    forall j: Slot
      ensures forall b: Addr :: Reaches(h', Get(fr, j), b) ==> Reaches(h, Get(fr, j), b) && b < |h|
      ensures forall b: Addr :: Owns(h', Get(fr, j), b) ==> Owns(h, Get(fr, j), b)
    {
      AgreeExtend(h, [c], Get(fr, j));
      AgreeSame(h, h', Get(fr, j));
      FieldsBelow(h, Get(fr, j));
    }
    assert FieldsUnique(h', HRef(|h|)) by {
      forall k: nat, k': nat, b: Addr | k != k' && b != EMPTY && HoldsAt(c, k, b) && OwnAt(c, k)
        ensures !HoldsAt(c, k', b)
      {
        assert Alone(h, fr, o.kept, ts, k);
        assert Owns(h, ts[k].v, b);
        assert HoldsAt(c, k', b) ==> Reaches(h, ts[k'].v, b);
      }
    }
    forall b: Addr | Owns(h', HRef(|h|), b)
      ensures b !in o.kept && forall j: Slot :: !Reaches(h', Get(fr, j), b)
    {
      if b != |h| {
        var k: nat :| HoldsAt(c, k, b) && OwnAt(c, k);
        assert Alone(h, fr, o.kept, ts, k);
        assert Owns(h, ts[k].v, b);
      }
    }
    forall b: Addr | Reaches(h', HRef(|h|), b)
      ensures b !in o.lent && forall j: Slot :: Owned(fr, j) ==> !Owns(h', Get(fr, j), b)
    {
      if b != |h| {
        var k: nat :| HoldsAt(c, k, b) && !MovedAt(c, k);
        assert Reaches(h, ts[k].v, b) && Free(h, ts[k].v, o.lent);
      } else {
        forall j: Slot | Owned(fr, j) ensures !Owns(h', Get(fr, j), b) {
          if Owns(h', Get(fr, j), b) { OwnsReaches(h', Get(fr, j), b); }
        }
      }
    }
  }

  lemma StructRefines(h: Heap, fr: Frame, o: Outside, ts: seq<Temp>, vs: seq<V.Val>, args: seq<Arg>)
    requires Waiting(h, fr, o, ts, vs, args, NeverBorrows)
    ensures Flat(h, ts) <==> V.Flat(vs)
    ensures Flat(h, ts) ==>
              var h' := h + [StructOf(ts)];
              InFlight(h', fr, o, Temp(HRef(|h|), true), V.VStruct(vs)) && Keeps(h, h', o.kept)
  {
    assert forall k: nat :: k < |ts| ==> FullSim(h, ts[k].v, vs[k]);
    assert forall k: nat :: k < |ts| ==> (IsStruct(h, ts[k].v) <==> vs[k].VStruct?);
    if Flat(h, ts) {
      forall v | v in vs ensures !v.VStruct? {
        var k: nat :| k < |vs| && vs[k] == v;
        assert ts[k] in ts;
      }
      StructFlight(h, fr, o, ts, args);
      var c := StructOf(ts);
      var h' := h + [c];
      StructCellOk(h, ts);
      forall k: nat | k < |vs|
        ensures SimField(h', c.vals[k], vs[k])
      {
        assert ts[k] in ts;
        assert FullSim(h, ts[k].v, vs[k]);
      }
    } else {
      var t :| t in ts && IsStruct(h, t.v);
      var k: nat :| k < |ts| && ts[k] == t;
      assert vs[k] in vs;
    }
  }

  // ── append ──

  /** A list owned by slot y alone, y being emptied, grows in place. */
  lemma GrowMoved(h: Heap, fr: Frame, o: Outside, y: Slot, n: int)
    requires Disciplined(h, fr, o) && IsList(h, Get(fr, y)) && Owned(fr, y)
    ensures var v := Get(fr, y);
            var (h', v') := Grow(h, v, n);
            var fr' := Put(fr, y, Temp(HNil, false));
            && InFlight(h', fr', o, Temp(v', true), V.VList(h[v.a].xs + [n])) && Keeps(h, h', o.kept)
            && forall j: Slot :: j != y ==> ValOk(h, Get(fr, j)) && Agree(h, h', Get(fr, j))
  {
    var v := Get(fr, y);
    var fr' := Put(fr, y, Temp(HNil, false));
    EmptyOk(h, fr, y, o);
    if v.a == EMPTY {
      assert h[EMPTY].xs + [n] == [n];
      FreshList(h, fr', [n], o, true);
      forall j: Slot ensures Agree(h, h + [ListCell([n])], Get(fr, j)) { AgreeExtend(h, [ListCell([n])], Get(fr, j)); }
    } else {
      var xs := h[v.a].xs + [n];
      var h' := h[v.a := ListCell(xs)];
      assert Exclusive(h, fr, o.kept, y) && Owns(h, v, v.a);
      WriteListOk(h, fr', v.a, xs, o);
      forall j: Slot | j != y ensures Get(fr', j) == Get(fr, j) && Agree(h, h', Get(fr, j)) {
        AgreeWrite(h, v.a, ListCell(xs), Get(fr, j));
      }
      forall j: Slot ensures !Reaches(h', Get(fr', j), v.a) {
        if j != y { AgreeSame(h, h', Get(fr, j)); }
      }
      forall b: Addr, j: Slot | Reaches(h', v, b) && Owned(fr', j) ensures !Owns(h', Get(fr', j), b) {
        if Owns(h', Get(fr', j), b) { OwnsReaches(h', Get(fr', j), b); }
      }
    }
  }

  lemma ListOfSame(h: Heap, v: HVal, pv: V.Val)
    requires Sim(h, v, pv)
    ensures ListOf(h, v) == if pv.VList? then pv.xs else []
    ensures IsList(h, v) <==> pv.VList?
  {
  }

  lemma AppendCopyRefines(h: Heap, fr: Frame, o: Outside, v: HVal, pv: V.Val, n: int)
    requires Disciplined(h, fr, o) && Sim(h, v, pv)
    ensures var (h', v') := AppendCopy(h, v, n);
            InFlight(h', fr, o, Temp(v', true), V.AppendTo(pv, n)) && Keeps(h, h', o.kept)
  {
    ListOfSame(h, v, pv);
    FreshList(h, fr, ListOf(h, v) + [n], o, true);
  }
}
