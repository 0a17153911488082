/** Passing values: what each form of argument does to the ownership discipline, with the values
  * already evaluated waiting beside the frame. A waiting value that is owned is alone: no slot, no
  * field and no other waiting value reaches it. A value a slot still owns may wait only where that
  * slot's local was lent to a parameter the callee borrows. Reading a local, lending it, moving it
  * and taking a field each keep both.
  */
module Arguments {
  import opened ProcSyntax
  import opened MoveAnalysis
  import opened OwnershipMachine
  import opened Ownership
  import opened OwnershipUpdates
  import opened Simulation

  /** An owned waiting value is held by nobody else. */
  ghost predicate Alone(h: Heap, fr: Frame, P: set<Addr>, ts: seq<Temp>, k: nat)
    requires k < |ts|
  {
    && FieldsUnique(h, ts[k].v)
    && forall b: Addr :: Owns(h, ts[k].v, b) ==>
         && b !in P
         && (forall j: Slot :: !Reaches(h, Get(fr, j), b))
         && (forall u :: 0 <= u < |ts| && u != k ==> !Reaches(h, ts[u].v, b))
  }

  /** Argument k is local x, read by a callee that borrows it while x keeps its own bit. */
  ghost predicate LentTo(args: seq<Arg>, borrow: nat -> bool, k: nat, x: Slot) {
    k < |args| && args[k] == ArgLocal(x) && borrow(k)
  }

  /** A value a slot still owns waits only where that slot's local was lent. */
  ghost predicate LoansOk(h: Heap, fr: Frame, ts: seq<Temp>, args: seq<Arg>, borrow: nat -> bool) {
    forall k: nat, b: Addr, j: Slot ::
      k < |ts| && Owned(fr, j) && Reaches(h, ts[k].v, b) && Owns(h, Get(fr, j), b) ==> LentTo(args, borrow, k, j)
  }

  ghost predicate TempsOk(h: Heap, fr: Frame, o: Outside, ts: seq<Temp>, args: seq<Arg>, borrow: nat -> bool) {
    && (forall k :: 0 <= k < |ts| ==>
          ValOk(h, ts[k].v) && Free(h, ts[k].v, o.lent) && (ts[k].owned ==> Alone(h, fr, o.kept, ts, k)))
    && LoansOk(h, fr, ts, args, borrow)
  }

  // ── a waiting value that holds no cell ──

  lemma PlainStep(h: Heap, fr: Frame, o: Outside, ts: seq<Temp>, args: seq<Arg>, borrow: nat -> bool, t: Temp)
    requires TempsOk(h, fr, o, ts, args, borrow) && !t.v.HRef?
    ensures TempsOk(h, fr, o, ts + [t], args, borrow)
  {
    var ts' := ts + [t];
    forall k | 0 <= k < |ts'|
      ensures ValOk(h, ts'[k].v) && Free(h, ts'[k].v, o.lent) && (ts'[k].owned ==> Alone(h, fr, o.kept, ts', k))
    {
      if k < |ts| && ts[k].owned { assert Alone(h, fr, o.kept, ts, k); }
    }
    assert LoansOk(h, fr, ts', args, borrow);
  }

  // ── a local: handed over, lent, or shared ──

  lemma ReadLocalStep(h: Heap, fr: Frame, o: Outside, ts: seq<Temp>, args: seq<Arg>, borrow: nat -> bool, x: Slot,
          move: bool)
    requires Disciplined(h, fr, o) && TempsOk(h, fr, o, ts, args, borrow)
    requires |ts| < |args| && args[|ts|] == ArgLocal(x) && x in o.escaping
    requires move ==> forall k :: 0 <= k < |ts| ==> !LentTo(args, borrow, k, x)
    ensures var r := ReadLocal(h, fr, x, move, borrow(|ts|));
            Disciplined(h, r.fr, o) && TempsOk(h, r.fr, o, ts + [r.t], args, borrow)
  {
    var r := ReadLocal(h, fr, x, move, borrow(|ts|));
    var fr', t := r.fr, r.t;
    DisownOk(h, fr, x, o);
    EmptyOk(h, fr, x, o);
    assert Owned(fr, x) ==> Exclusive(h, fr, o.kept, x);
    assert Free(h, Get(fr, x), o.lent);
    forall j: Slot
      ensures forall b: Addr :: Reaches(h, Get(fr', j), b) ==> Reaches(h, Get(fr, j), b)
      ensures Owned(fr', j) ==> Owned(fr, j) && Get(fr', j) == Get(fr, j)
      ensures move && x < |fr.slots| ==> j == x ==> !Owned(fr', j) && Get(fr', j) == HNil
    {
    }
    AddTemp(h, fr, h, fr', o, ts, args, borrow, t);
  }

  /** One more waiting value, after the frame has given up its claim to it. */
  lemma AddTemp(h: Heap, fr: Frame, h': Heap, fr': Frame, o: Outside, ts: seq<Temp>, args: seq<Arg>,
          borrow: nat -> bool, t: Temp)
    requires TempsOk(h, fr, o, ts, args, borrow)
    requires ValOk(h', t.v) && Free(h', t.v, o.lent)
      // the step only shrinks what slots and waiting values hold and own
    requires forall j: Slot, b: Addr :: Reaches(h', Get(fr', j), b) ==> Reaches(h, Get(fr, j), b)
    requires forall j: Slot :: Owned(fr', j) ==> Owned(fr, j)
    requires forall j: Slot, b: Addr :: Owned(fr', j) && Owns(h', Get(fr', j), b) ==> Owns(h, Get(fr, j), b)
    requires forall k: nat :: k < |ts| ==>
      ValOk(h', ts[k].v) && (FieldsUnique(h, ts[k].v) ==> FieldsUnique(h', ts[k].v))
    requires forall k: nat, b: Addr :: k < |ts| && Reaches(h', ts[k].v, b) ==> Reaches(h, ts[k].v, b)
    requires forall k: nat, b: Addr :: k < |ts| && Owns(h', ts[k].v, b) ==> Owns(h, ts[k].v, b)
      // t was held by a slot, and whoever owns part of it lent it
    requires forall b: Addr :: Reaches(h', t.v, b) ==> exists x: Slot :: Reaches(h, Get(fr, x), b)
    requires t.owned ==> FieldsUnique(h', t.v)
    requires t.owned ==> forall b: Addr :: Owns(h', t.v, b) ==>
               b !in o.kept && (forall j: Slot :: !Reaches(h', Get(fr', j), b))
                 && (forall k :: 0 <= k < |ts| ==> !Reaches(h, ts[k].v, b))
    requires forall b: Addr, j: Slot :: Owned(fr', j) && Reaches(h', t.v, b) && Owns(h', Get(fr', j), b) ==>
               LentTo(args, borrow, |ts|, j)
    ensures TempsOk(h', fr', o, ts + [t], args, borrow)
  {
    var ts' := ts + [t];
    forall k | 0 <= k < |ts'|
      ensures ValOk(h', ts'[k].v) && Free(h', ts'[k].v, o.lent) && (ts'[k].owned ==> Alone(h', fr', o.kept, ts', k))
    {
      if k < |ts| {
        assert Free(h, ts[k].v, o.lent);
        if ts[k].owned {
          assert Alone(h, fr, o.kept, ts, k);
          forall b: Addr | Owns(h', ts[k].v, b)
            ensures b !in o.kept
            ensures forall j: Slot :: !Reaches(h', Get(fr', j), b)
            ensures forall u :: 0 <= u < |ts'| && u != k ==> !Reaches(h', ts'[u].v, b)
          {
            assert Owns(h, ts[k].v, b);
          }
        }
      }
    }
    forall k: nat, b: Addr, j: Slot | k < |ts'| && Owned(fr', j) && Reaches(h', ts'[k].v, b) && Owns(h', Get(fr', j), b)
      ensures LentTo(args, borrow, k, j)
    {
      if k < |ts| { assert Reaches(h, ts[k].v, b) && Owns(h, Get(fr, j), b); }
    }
  }

  // ── a field of a local ──

  /** The cell that stays behind when field f is given up holds and owns no more than before. */
  lemma GiveUpShrinks(h: Heap, a: Addr, f: nat, move: bool, v: HVal)
    requires a < |h| && h[a].StructCell? && CellOk(h, h[a]) && f < |h[a].vals|
    ensures var h' := h[a := GiveUp(h[a], f, move)];
            && (forall b: Addr :: Reaches(h', v, b) ==> Reaches(h, v, b))
            && (forall b: Addr :: Owns(h', v, b) ==> Owns(h, v, b))
            && (FieldsUnique(h, v) ==> FieldsUnique(h', v))
  {
    var c, c' := h[a], GiveUp(h[a], f, move);
    assert forall k: nat :: MovedAt(c, k) ==> MovedAt(c', k);
    assert forall k: nat :: OwnAt(c', k) ==> OwnAt(c, k);
    assert forall k: nat, b: Addr :: HoldsAt(c', k, b) <==> HoldsAt(c, k, b);
    if CellUnique(c) {
      assert CellUnique(c');
    }
  }

  /** After field f of x's struct is given up, no slot owns what it holds. */
  lemma GivenUp(h: Heap, fr: Frame, o: Outside, x: Slot, f: nat, move: bool, b: Addr)
    requires Disciplined(h, fr, o) && IsStruct(h, Get(fr, x)) && b != EMPTY
    requires HoldsAt(h[Get(fr, x).a], f, b) && !MovedAt(h[Get(fr, x).a], f)
    ensures CellOk(h, h[Get(fr, x).a])
    ensures var a := Get(fr, x).a;
            var h' := h[a := GiveUp(h[a], f, move)];
            && (forall j: Slot :: Owned(fr, j) ==> !Owns(h', Get(fr, j), b))
            && (move && Owned(fr, x) && OwnAt(h[a], f) ==> !Reaches(h', Get(fr, x), b))
  {
    var a := Get(fr, x).a;
    var c := h[a];
    assert CellOk(h, c);
    assert FieldOk(h, c.vals[f]);
    var c' := GiveUp(c, f, move);
    var h' := h[a := c'];
    assert Reaches(h, Get(fr, x), b);
    forall j: Slot | Owned(fr, j)
      ensures !Owns(h', Get(fr, j), b)
    {
      GiveUpShrinks(h, a, f, move, Get(fr, j));
      assert Exclusive(h, fr, o.kept, j);
      if j == x && Owns(h', Get(fr, j), b) {
        var k: nat :| HoldsAt(c', k, b) && OwnAt(c', k);
        assert k != f && HoldsAt(c, k, b) && OwnAt(c, k);
        assert false;
      }
    }
    if move && Owned(fr, x) && OwnAt(c, f) && Reaches(h', Get(fr, x), b) {
      assert Exclusive(h, fr, o.kept, x);
      var k: nat :| HoldsAt(c', k, b) && !MovedAt(c', k);
      assert k != f && HoldsAt(c, k, b);
      assert false;
    }
  }

  /** Field f of x's struct, owned through x, is given up; its value waits. */
  lemma TakeOwnedStep(h: Heap, fr: Frame, o: Outside, ts: seq<Temp>, args: seq<Arg>, borrow: nat -> bool, x: Slot,
          f: nat, move: bool)
    requires Disciplined(h, fr, o) && TempsOk(h, fr, o, ts, args, borrow) && x in o.escaping
    requires IsStruct(h, Get(fr, x)) && f < |h[Get(fr, x).a].vals|
    requires !MovedAt(h[Get(fr, x).a], f) && Owned(fr, x) && FieldOwned(h[Get(fr, x).a], f)
    requires move ==> forall k :: 0 <= k < |ts| ==> !LentTo(args, borrow, k, x)
    ensures CellOk(h, h[Get(fr, x).a])
    ensures var a := Get(fr, x).a;
            var h' := h[a := GiveUp(h[a], f, move)];
            && Disciplined(h', fr, o) && TempsOk(h', fr, o, ts + [Temp(h[a].vals[f], move)], args, borrow)
            && Keeps(h, h', o.kept)
  {
    var v := Get(fr, x);
    var a := v.a;
    assert CellOk(h, h[a]) && FieldOk(h, h[a].vals[f]);
    var t := Temp(h[a].vals[f], move);
    var h' := h[a := GiveUp(h[a], f, move)];
    assert Free(h, v, o.lent);
    GiveUpOk(h, fr, x, f, move, o);
    assert Exclusive(h, fr, o.kept, x) && Owns(h, v, a);
    forall j: Slot ensures
      && (forall b: Addr :: Reaches(h', Get(fr, j), b) ==> Reaches(h, Get(fr, j), b))
      && (forall b: Addr :: Owns(h', Get(fr, j), b) ==> Owns(h, Get(fr, j), b))
    {
      GiveUpShrinks(h, a, f, move, Get(fr, j));
    }
    forall k: nat | k < |ts| ensures
      && ValOk(h', ts[k].v)
      && (FieldsUnique(h, ts[k].v) ==> FieldsUnique(h', ts[k].v))
      && (forall b: Addr :: Reaches(h', ts[k].v, b) ==> Reaches(h, ts[k].v, b))
      && (forall b: Addr :: Owns(h', ts[k].v, b) ==> Owns(h, ts[k].v, b))
    {
      GiveUpShrinks(h, a, f, move, ts[k].v);
    }
    forall b: Addr | Reaches(h', t.v, b)
      ensures Reaches(h, v, b) && (move ==> Owns(h, v, b))
      ensures forall j: Slot :: Owned(fr, j) ==> !Owns(h', Get(fr, j), b)
      ensures move ==> forall j: Slot :: !Reaches(h', Get(fr, j), b)
      ensures move ==> forall k :: 0 <= k < |ts| ==> !Reaches(h, ts[k].v, b)
    {
      assert HoldsAt(h[a], f, b);
      GivenUp(h, fr, o, x, f, move, b);
    }
    forall b: Addr | Owns(h', t.v, b) ensures Reaches(h', t.v, b) { OwnsReaches(h', t.v, b); }
    assert Owned(fr, x) && forall b: Addr :: Owns(h, v, b) ==> b !in o.kept;
    hide Disciplined, IsStruct, CellOk, GiveUp, FieldOwned;
    AddTemp(h, fr, h', fr, o, ts, args, borrow, t);
  }

  /** A field read of a struct x does not own, or of a field it does not own, is shared. */
  lemma ShareFieldStep(h: Heap, fr: Frame, o: Outside, ts: seq<Temp>, args: seq<Arg>, borrow: nat -> bool, x: Slot,
          f: nat)
    requires Disciplined(h, fr, o) && TempsOk(h, fr, o, ts, args, borrow) && x in o.escaping
    requires IsStruct(h, Get(fr, x)) && f < |h[Get(fr, x).a].vals|
    requires !MovedAt(h[Get(fr, x).a], f) && !(Owned(fr, x) && FieldOwned(h[Get(fr, x).a], f))
    ensures TempsOk(h, fr, o, ts + [Temp(h[Get(fr, x).a].vals[f], false)], args, borrow)
  {
    var v := Get(fr, x);
    assert CellOk(h, h[v.a]) && FieldOk(h, h[v.a].vals[f]);
    var t := Temp(h[v.a].vals[f], false);
    assert Free(h, v, o.lent);
    forall b: Addr | Reaches(h, t.v, b)
      ensures Reaches(h, v, b)
      ensures forall j: Slot :: Owned(fr, j) ==> !Owns(h, Get(fr, j), b)
    {
      assert HoldsAt(h[v.a], f, b);
      FieldUnowned(h, fr, o, x, f, b);
    }
    hide Disciplined, IsStruct, CellOk, FieldOwned;
    AddTemp(h, fr, h, fr, o, ts, args, borrow, t);
  }

  lemma TakeFieldStep(h: Heap, fr: Frame, o: Outside, ts: seq<Temp>, args: seq<Arg>, borrow: nat -> bool, x: Slot,
          f: nat, move: bool)
    requires Disciplined(h, fr, o) && TempsOk(h, fr, o, ts, args, borrow)
    requires x in o.escaping && !MovedIn(h, Get(fr, x), f)
    requires move ==> forall k :: 0 <= k < |ts| ==> !LentTo(args, borrow, k, x)
    ensures TakeField(h, fr, x, f, move).ArgOk? ==>
              var r := TakeField(h, fr, x, f, move);
              && r.fr == fr
              && Disciplined(r.h, fr, o) && TempsOk(r.h, fr, o, ts + [r.t], args, borrow) && Keeps(h, r.h, o.kept)
  {
    hide Disciplined, TempsOk, Keeps;
    var v := Get(fr, x);
    KeepsSelf(h, o.kept);
    if IsStruct(h, v) {
      if f >= |h[v.a].vals| {
        PlainStep(h, fr, o, ts, args, borrow, Temp(HNil, false));
      } else if Owned(fr, x) && FieldOwned(h[v.a], f) {
        TakeOwnedStep(h, fr, o, ts, args, borrow, x, f, move);
      } else {
        ShareFieldStep(h, fr, o, ts, args, borrow, x, f);
      }
    }
  }

  lemma KeepsSelf(h: Heap, P: set<Addr>)
    ensures Keeps(h, h, P)
  {
  }

  /** What a field not owned through x holds, no slot owns. */
  lemma FieldUnowned(h: Heap, fr: Frame, o: Outside, x: Slot, f: nat, b: Addr)
    requires Disciplined(h, fr, o) && IsStruct(h, Get(fr, x)) && b != EMPTY
    requires HoldsAt(h[Get(fr, x).a], f, b) && !MovedAt(h[Get(fr, x).a], f)
    requires !(Owned(fr, x) && FieldOwned(h[Get(fr, x).a], f))
    ensures Reaches(h, Get(fr, x), b)
    ensures forall j: Slot :: Owned(fr, j) ==> !Owns(h, Get(fr, j), b)
  {
    var c := h[Get(fr, x).a];
    assert CellOk(h, c);
    assert FieldOk(h, c.vals[f]);
    assert Reaches(h, Get(fr, x), b);
    forall j: Slot | Owned(fr, j)
      ensures !Owns(h, Get(fr, j), b)
    {
      assert Exclusive(h, fr, o.kept, j);
      assert OwnAt(c, f) ==> f < OWN_BITS;
    }
  }
}
