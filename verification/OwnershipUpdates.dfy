/** Every kind of heap update the engine makes keeps the ownership discipline: a slot emptied, rebound
  * or disowned, a cell allocated, and a cell only one owned slot can reach rewritten in place. Each
  * lemma changes one thing and says what the rest of the frame, the cells kept for callers and the
  * values on their way still see.
  */
module OwnershipUpdates {
  import opened ProcSyntax
  import opened MoveAnalysis
  import opened OwnershipMachine
  import opened Ownership

  lemma DisownOk(h: Heap, fr: Frame, x: Slot, o: Outside)
    requires Disciplined(h, fr, o)
    ensures Disciplined(h, Disown(fr, x), o)
  {
    var fr' := Disown(fr, x);
    forall i: Slot
      ensures Get(fr', i) == Get(fr, i) && (Owned(fr', i) ==> Owned(fr, i))
      ensures Owned(fr, i) ==> FieldsUnique(h, Get(fr, i))
    {
      assert Owned(fr, i) ==> Exclusive(h, fr, o.kept, i);
    }
    assert Shrinks(h, fr, h, fr');
    ShrinkOk(h, fr, h, fr', o);
  }

  lemma EmptyOk(h: Heap, fr: Frame, x: Slot, o: Outside)
    requires Disciplined(h, fr, o)
    ensures Disciplined(h, Put(fr, x, Temp(HNil, false)), o)
  {
    var fr' := Put(fr, x, Temp(HNil, false));
    forall i: Slot
      ensures Get(fr', i) == Get(fr, i) || Get(fr', i) == HNil
      ensures Owned(fr', i) ==> Owned(fr, i) && Get(fr', i) == Get(fr, i)
      ensures Owned(fr, i) ==> FieldsUnique(h, Get(fr, i))
    {
      assert Owned(fr, i) ==> Exclusive(h, fr, o.kept, i);
    }
    assert Shrinks(h, fr, h, fr');
    ShrinkOk(h, fr, h, fr', o);
  }

  lemma HeapExtend(h: Heap, c: Cell)
    requires HeapOk(h) && CellOk(h, c)
    ensures HeapOk(h + [c])
  {
    var h' := h + [c];
    forall a | 0 <= a < |h'|
      ensures CellOk(h', h'[a])
    {
      var c' := h'[a];
      assert CellOk(h, c');
      if c'.StructCell? {
        forall k | 0 <= k < |c'.vals|
          ensures FieldOk(h', c'.vals[k])
        {
          assert FieldOk(h, c'.vals[k]);
        }
      }
    }
  }

  /** Replacing a cell by one of the same kind keeps every other cell well formed. */
  lemma HeapReplace(h: Heap, a: Addr, c: Cell)
    requires HeapOk(h) && CellOk(h, c)
    requires a < |h| && a != EMPTY && (c.ListCell? <==> h[a].ListCell?)
    ensures HeapOk(h[a := c])
  {
    var h' := h[a := c];
    forall a' | 0 <= a' < |h'|
      ensures CellOk(h', h'[a'])
    {
      var c' := h'[a'];
      assert CellOk(h, c');
      if c'.StructCell? {
        forall k | 0 <= k < |c'.vals|
          ensures FieldOk(h', c'.vals[k])
        {
          assert FieldOk(h, c'.vals[k]);
        }
      }
    }
  }

  lemma AllocOk(h: Heap, fr: Frame, c: Cell, o: Outside)
    requires Disciplined(h, fr, o) && CellOk(h, c)
    ensures Disciplined(h + [c], fr, o) && Keeps(h, h + [c], o.kept)
  {
    HeapExtend(h, c);
    forall i: Slot
      ensures Agree(h, h + [c], Get(fr, i))
      ensures Owned(fr, i) ==> FieldsUnique(h, Get(fr, i))
    {
      AgreeExtend(h, [c], Get(fr, i));
      assert Owned(fr, i) ==> Exclusive(h, fr, o.kept, i);
    }
    AgreeShrinks(h, fr, h + [c], fr);
    ShrinkOk(h, fr, h + [c], fr, o);
  }

  /** Writing a list cell in place changes nobody's holdings. */
  lemma WriteListOk(h: Heap, fr: Frame, a: Addr, xs: seq<int>, o: Outside)
    requires Disciplined(h, fr, o)
    requires a < |h| && a != EMPTY && h[a].ListCell?
    ensures Disciplined(h[a := ListCell(xs)], fr, o)
  {
    var h' := h[a := ListCell(xs)];
    HeapReplace(h, a, ListCell(xs));
    forall i: Slot | Owned(fr, i)
      ensures FieldsUnique(h', Get(fr, i))
    {
      assert Exclusive(h, fr, o.kept, i);
    }
    assert Shrinks(h, fr, h', fr);
    ShrinkOk(h, fr, h', fr, o);
  }

  /** A struct held by its owner alone gives up some of what it holds or owns. */
  lemma GiveUpOk(h: Heap, fr: Frame, x: Slot, f: nat, move: bool, o: Outside)
    requires Disciplined(h, fr, o)
    requires IsStruct(h, Get(fr, x)) && f < |h[Get(fr, x).a].vals|
    ensures CellOk(h, h[Get(fr, x).a])
    ensures var a := Get(fr, x).a; Disciplined(h[a := GiveUp(h[a], f, move)], fr, o)
  {
    var a := Get(fr, x).a;
    assert CellOk(h, h[a]);
    var c := GiveUp(h[a], f, move);
    var h' := h[a := c];
    assert CellOk(h, c) by {
      forall k: nat | OwnAt(c, k)
        ensures !MovedAt(c, k) && k < OWN_BITS
      {
        assert OwnAt(h[a], k);
      }
    }
    HeapReplace(h, a, c);
    forall b: Addr
      ensures CellReaches(c, b) ==> CellReaches(h[a], b)
      ensures CellOwns(c, b) ==> CellOwns(h[a], b)
    {
      assert forall k: nat :: HoldsAt(c, k, b) ==> HoldsAt(h[a], k, b);
      assert forall k: nat :: MovedAt(h[a], k) ==> MovedAt(c, k);
      assert forall k: nat :: OwnAt(c, k) ==> OwnAt(h[a], k);
    }
    forall i: Slot | Owned(fr, i)
      ensures FieldsUnique(h', Get(fr, i))
    {
      assert Exclusive(h, fr, o.kept, i);
      if Get(fr, i) == HRef(a) {
        assert CellUnique(h[a]);
        forall k: nat, k': nat, b: Addr | k != k' && b != EMPTY && HoldsAt(c, k, b) && OwnAt(c, k) && HoldsAt(c, k', b)
          ensures MovedAt(c, k')
        {
          assert HoldsAt(h[a], k, b) && OwnAt(h[a], k) && HoldsAt(h[a], k', b);
        }
      }
    }
    assert Shrinks(h, fr, h', fr);
    ShrinkOk(h, fr, h', fr, o);
  }

  /** A value in flight is bound to slot x. */
  lemma BindOk(h: Heap, fr: Frame, x: Slot, t: Temp, o: Outside)
    requires Disciplined(h, fr, o) && Flight(h, fr, o.kept, t)
    requires x in o.escaping ==> Free(h, t.v, o.lent)
    ensures Disciplined(h, Put(fr, x, t), o)
  {
    var fr' := Put(fr, x, t);
    if x >= |fr.slots| { return; }
    forall j: Slot
      ensures Get(fr', j) == if j == x then t.v else Get(fr, j)
      ensures Owned(fr', j) == if j == x then t.owned else Owned(fr, j)
    {
    }
    forall i: Slot | Owned(fr', i)
      ensures Exclusive(h, fr', o.kept, i)
    {
      if i == x {
        forall b: Addr | Owns(h, t.v, b)
          ensures b !in o.kept && forall j: Slot :: j != x ==> !Reaches(h, Get(fr', j), b)
        {
          forall j: Slot | j != x ensures !Reaches(h, Get(fr', j), b) { assert !Reaches(h, Get(fr, j), b); }
        }
      } else {
        assert Exclusive(h, fr, o.kept, i);
        forall b: Addr | Owns(h, Get(fr, i), b)
          ensures b !in o.kept && forall j: Slot :: j != i ==> !Reaches(h, Get(fr', j), b)
        {
          forall j: Slot | j != i
            ensures !Reaches(h, Get(fr', j), b)
          {
            if j == x { assert Reaches(h, t.v, b) ==> !Owns(h, Get(fr, i), b); } else {
              assert !Reaches(h, Get(fr, j), b);
            }
          }
        }
      }
    }
    forall j: Slot | j in o.escaping
      ensures Free(h, Get(fr', j), o.lent)
    {
      assert Free(h, Get(fr, j), o.lent);
    }
  }

  /** Anything holding no cell is in flight. */
  lemma PlainFlight(h: Heap, fr: Frame, o: Outside, t: Temp)
    requires !t.v.HRef? || t.v.a == EMPTY
    requires HeapOk(h)
    ensures Flight(h, fr, o.kept, t) && Free(h, t.v, o.lent)
  {
  }

  /** A freshly built list is in flight, owned or not. */
  lemma FreshList(h: Heap, fr: Frame, xs: seq<int>, o: Outside, owned: bool)
    requires Disciplined(h, fr, o)
    ensures var h' := h + [ListCell(xs)];
            && Disciplined(h', fr, o) && Keeps(h, h', o.kept)
            && Flight(h', fr, o.kept, Temp(HRef(|h|), owned)) && Free(h', HRef(|h|), o.lent)
  {
    var c := ListCell(xs);
    var h' := h + [c];
    AllocOk(h, fr, c, o);
    forall j: Slot, b: Addr | b >= |h|
      ensures !Reaches(h', Get(fr, j), b)
    {
      FreshUnheld(h, fr, c, j, b);
    }
    forall b: Addr, j: Slot | Reaches(h', HRef(|h|), b) && Owned(fr, j)
      ensures !Owns(h', Get(fr, j), b)
    {
      if Owns(h', Get(fr, j), b) { OwnsReaches(h', Get(fr, j), b); }
    }
  }

  lemma FreshUnheld(h: Heap, fr: Frame, c: Cell, j: Slot, b: Addr)
    requires HeapOk(h) && ValOk(h, Get(fr, j)) && b >= |h|
    ensures !Reaches(h + [c], Get(fr, j), b)
  {
    FieldsBelow(h, Get(fr, j));
  }

  lemma FieldsBelow(h: Heap, v: HVal)
    requires HeapOk(h) && ValOk(h, v)
    ensures forall b: Addr :: Reaches(h, v, b) ==> b < |h|
    ensures v.HRef? ==> forall k: nat, b: Addr :: HoldsAt(h[v.a], k, b) ==> b < |h|
  {
    if v.HRef? {
      assert CellOk(h, h[v.a]);
      forall k: nat, b: Addr | HoldsAt(h[v.a], k, b)
        ensures b < |h|
      {
        assert FieldOk(h, h[v.a].vals[k]);
      }
    }
  }

  // ── storing into a field of an owned struct ──

  lemma SetFieldCell(h: Heap, c: Cell, f: nat, t: Temp)
    requires HeapOk(h) && c.StructCell? && CellOk(h, c) && FieldOk(h, t.v) && f < |c.vals|
    ensures CellOk(h, SetField(c, f, t))
    ensures forall b: Addr :: CellReaches(SetField(c, f, t), b) ==> CellReaches(c, b) || t.v == HRef(b)
    ensures forall b: Addr :: CellOwns(SetField(c, f, t), b) ==> CellOwns(c, b) || (t.owned && t.v == HRef(b))
  {
    var c' := SetField(c, f, t);
    forall k: nat | OwnAt(c', k)
      ensures !MovedAt(c', k) && k < OWN_BITS
    {
      assert k != f ==> OwnAt(c, k);
    }
    forall b: Addr, k: nat | HoldsAt(c', k, b)
      ensures if k == f then t.v == HRef(b) else HoldsAt(c, k, b)
      ensures k != f ==> MovedAt(c', k) == MovedAt(c, k) && OwnAt(c', k) == OwnAt(c, k)
      ensures k == f && OwnAt(c', k) ==> t.owned
    {
    }
  }

  lemma SetFieldUnique(h: Heap, fr: Frame, x: Slot, f: nat, t: Temp, o: Outside)
    requires Disciplined(h, fr, o) && Owned(fr, x) && IsStruct(h, Get(fr, x))
    requires f < |h[Get(fr, x).a].vals| && FieldOk(h, t.v) && Flight(h, fr, o.kept, t)
    ensures CellUnique(SetField(h[Get(fr, x).a], f, t))
  {
    var c := h[Get(fr, x).a];
    var c' := SetField(c, f, t);
    assert CellOk(h, c) && Exclusive(h, fr, o.kept, x);
    forall k: nat, k': nat, b: Addr | k != k' && b != EMPTY && HoldsAt(c', k, b) && OwnAt(c', k) && HoldsAt(c', k', b)
      ensures MovedAt(c', k')
    {
      if k == f {
        assert Owns(h, t.v, b) && !Reaches(h, Get(fr, x), b);
        assert HoldsAt(c, k', b);
      } else if k' == f {
        assert HoldsAt(c, k, b) && OwnAt(c, k);
        assert Owns(h, Get(fr, x), b) && Reaches(h, t.v, b);
        assert false;
      } else {
        assert HoldsAt(c, k, b) && OwnAt(c, k) && HoldsAt(c, k', b);
      }
    }
  }

  lemma SetFieldOk(h: Heap, fr: Frame, x: Slot, f: nat, t: Temp, o: Outside)
    requires Disciplined(h, fr, o) && Owned(fr, x) && IsStruct(h, Get(fr, x))
    requires f < |h[Get(fr, x).a].vals| && FieldOk(h, t.v)
    requires Flight(h, fr, o.kept, t) && (x in o.escaping ==> Free(h, t.v, o.lent))
    ensures var a := Get(fr, x).a; Disciplined(h[a := SetField(h[a], f, t)], fr, o)
  {
    var a := Get(fr, x).a;
    var c' := SetField(h[a], f, t);
    var h' := h[a := c'];
    assert CellOk(h, h[a]) && Exclusive(h, fr, o.kept, x);
    assert Owns(h, Get(fr, x), a);
    SetFieldCell(h, h[a], f, t);
    SetFieldUnique(h, fr, x, f, t, o);
    HeapReplace(h, a, c');
    forall j: Slot, b: Addr
      ensures Reaches(h', Get(fr, j), b) ==> Reaches(h, Get(fr, j), b) || (j == x && t.v == HRef(b))
      ensures Owns(h', Get(fr, j), b) ==> Owns(h, Get(fr, j), b) || (j == x && t.owned && t.v == HRef(b))
    {
      assert j != x ==> !Reaches(h, Get(fr, j), a);
    }
    forall i: Slot | Owned(fr, i)
      ensures Exclusive(h', fr, o.kept, i)
    {
      assert Exclusive(h, fr, o.kept, i);
      assert i != x ==> !Reaches(h, Get(fr, i), a);
      forall b: Addr | Owns(h', Get(fr, i), b)
        ensures b !in o.kept && forall j: Slot :: j != i ==> !Reaches(h', Get(fr, j), b)
      {
        SetFieldExclusive(h, fr, x, t, o, i, b);
      }
    }
    forall j: Slot | j in o.escaping
      ensures Free(h', Get(fr, j), o.lent)
    {
      assert Free(h, Get(fr, j), o.lent);
      assert t.v.HRef? && t.v.a != EMPTY ==> Reaches(h, t.v, t.v.a);
    }
  }

  /** What slot i owns, or the stored value if it is owned, is out of every other slot's reach. */
  lemma SetFieldExclusive(h: Heap, fr: Frame, x: Slot, t: Temp, o: Outside, i: Slot, b: Addr)
    requires Disciplined(h, fr, o) && Owned(fr, i) && FieldOk(h, t.v) && b != EMPTY
    requires Flight(h, fr, o.kept, t)
    requires Owns(h, Get(fr, i), b) || (i == x && t.owned && t.v == HRef(b))
    ensures b !in o.kept
    ensures forall j: Slot :: j != i ==> !Reaches(h, Get(fr, j), b)
    ensures t.v == HRef(b) ==> i == x && !Owns(h, Get(fr, i), b)
  {
    assert Exclusive(h, fr, o.kept, i);
    if t.v == HRef(b) {
      assert Reaches(h, t.v, b);
      if Owns(h, Get(fr, i), b) {
        assert false;
      } else {
        assert Owns(h, t.v, b);
      }
    }
  }
}
