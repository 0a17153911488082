/** The ownership discipline: what an own bit promises about the heap, stated for one frame against
  * everything outside it. A value an owned slot holds is held by no other live slot, by no field the
  * engine may still read and by no caller's frame; a field's own bit under an owned slot says the
  * struct is that value's only holder. A field whose value was moved out is left as it is and is
  * marked, so that the promise can leave it out.
  */
module Ownership {
  import opened ProcSyntax
  import V = ValueMachine
  import opened MoveAnalysis
  import opened OwnershipMachine

  /** What a frame must respect.  `kept` are the cells held outside it: they may not change while
    * it runs.  `lent` are those of them whose outside owner keeps its own bit meanwhile (passed
    * through borrowed parameters): the frame may not let them out.  `escaping` are its slots
    * whose values may outlive the statement reading them. */
  datatype Outside = Outside(kept: set<Addr>, lent: set<Addr>, escaping: set<Slot>)

  // ── holding and owning ──

  predicate MovedAt(c: Cell, k: nat) {
    c.StructCell? && k < |c.moved| && c.moved[k]
  }

  predicate OwnAt(c: Cell, k: nat) {
    c.StructCell? && k < |c.own| && c.own[k]
  }

  predicate HoldsAt(c: Cell, k: nat, b: Addr) {
    c.StructCell? && k < |c.vals| && c.vals[k] == HRef(b)
  }

  ghost predicate CellReaches(c: Cell, b: Addr) {
    exists k: nat :: HoldsAt(c, k, b) && !MovedAt(c, k)
  }

  ghost predicate CellOwns(c: Cell, b: Addr) {
    exists k: nat :: HoldsAt(c, k, b) && OwnAt(c, k)
  }

  /** A holder of v can still read cell b.  The shared `[]` never changes, so it is not counted. */
  ghost predicate Reaches(h: Heap, v: HVal, b: Addr) {
    b != EMPTY && v.HRef? && v.a < |h| && (v.a == b || CellReaches(h[v.a], b))
  }

  /** An owner of v may write cell b in place. */
  ghost predicate Owns(h: Heap, v: HVal, b: Addr) {
    b != EMPTY && v.HRef? && v.a < |h| && (v.a == b || CellOwns(h[v.a], b))
  }

  ghost predicate Free(h: Heap, v: HVal, s: set<Addr>) {
    forall b <- s :: !Reaches(h, v, b)
  }

  // ── well-formed heaps ──

  predicate ValOk(h: Heap, v: HVal) {
    v.HRef? ==> v.a < |h|
  }

  predicate FieldOk(h: Heap, v: HVal) {
    v.HRef? ==> v.a < |h| && h[v.a].ListCell?
  }

  ghost predicate CellOk(h: Heap, c: Cell) {
    c.StructCell? ==>
      && |c.own| == |c.vals| == |c.moved|
      && (forall k :: 0 <= k < |c.vals| ==> FieldOk(h, c.vals[k]))
      && (forall k: nat :: OwnAt(c, k) ==> !MovedAt(c, k) && k < OWN_BITS)
  }

  ghost predicate HeapOk(h: Heap) {
    && |h| > 0 && h[EMPTY] == ListCell([])
    && forall a :: 0 <= a < |h| ==> CellOk(h, h[a])
  }

  /** An owned field's list is held by no other field of the same struct. */
  ghost predicate CellUnique(c: Cell) {
    forall k: nat, k': nat, b: Addr ::
      k != k' && b != EMPTY && HoldsAt(c, k, b) && OwnAt(c, k) && HoldsAt(c, k', b) ==> MovedAt(c, k')
  }

  ghost predicate FieldsUnique(h: Heap, v: HVal) {
    IsStruct(h, v) ==> CellUnique(h[v.a])
  }

  // ── the invariant ──

  /** Whatever slot i may write in place is held by nobody else. */
  ghost predicate Exclusive(h: Heap, fr: Frame, P: set<Addr>, i: Slot) {
    && FieldsUnique(h, Get(fr, i))
    && forall b: Addr :: Owns(h, Get(fr, i), b) ==>
         && b !in P
         && forall j: Slot :: j != i ==> !Reaches(h, Get(fr, j), b)
  }

  ghost predicate Inv(h: Heap, fr: Frame, P: set<Addr>) {
    && HeapOk(h)
    && |fr.slots| == |fr.own|
    && (forall i: Slot :: ValOk(h, Get(fr, i)))
    && (forall i: Slot :: Owned(fr, i) ==> Exclusive(h, fr, P, i))
  }

  ghost predicate Lent(h: Heap, fr: Frame, B: set<Addr>, esc: set<Slot>) {
    forall j <- esc :: Free(h, Get(fr, j), B)
  }

  ghost predicate Within(P: set<Addr>, h: Heap) {
    forall b <- P :: b < |h|
  }

  ghost predicate Disciplined(h: Heap, fr: Frame, o: Outside) {
    Inv(h, fr, o.kept) && Lent(h, fr, o.lent, o.escaping) && o.lent <= o.kept && Within(o.kept, h)
  }

  /** A value in flight: it may be bound to any slot, with its ownership. */
  ghost predicate Flight(h: Heap, fr: Frame, P: set<Addr>, t: Temp) {
    && ValOk(h, t.v)
    && (t.owned ==>
          && FieldsUnique(h, t.v)
          && forall b: Addr :: Owns(h, t.v, b) ==> b !in P && forall j: Slot :: !Reaches(h, Get(fr, j), b))
    && (forall b: Addr, j: Slot :: Reaches(h, t.v, b) && Owned(fr, j) ==> !Owns(h, Get(fr, j), b))
  }

  /** Nothing in P changed, and addresses stay valid. */
  ghost predicate Keeps(h: Heap, h': Heap, P: set<Addr>) {
    |h| <= |h'| && forall b <- P :: b < |h| ==> h'[b] == h[b]
  }

  // ── agreement of two heaps on what a value reaches ──

  ghost predicate Agree(h: Heap, h': Heap, v: HVal) {
    v.HRef? ==>
      && v.a < |h| && v.a < |h'| && h'[v.a] == h[v.a]
      && (forall k: nat, b: Addr :: HoldsAt(h[v.a], k, b) && !MovedAt(h[v.a], k) ==>
        b < |h| && b < |h'| && h'[b] == h[b])
  }

  lemma OwnsReaches(h: Heap, v: HVal, b: Addr)
    requires HeapOk(h) && Owns(h, v, b)
    ensures Reaches(h, v, b)
  {
    if v.a != b {
      var k :| HoldsAt(h[v.a], k, b) && OwnAt(h[v.a], k);
      assert CellOk(h, h[v.a]);
      assert !MovedAt(h[v.a], k);
    }
  }

  lemma AgreeSame(h: Heap, h': Heap, v: HVal)
    requires Agree(h, h', v)
    ensures forall b: Addr :: Reaches(h', v, b) <==> Reaches(h, v, b)
    ensures forall b: Addr :: Owns(h', v, b) <==> Owns(h, v, b)
    ensures FieldsUnique(h', v) <==> FieldsUnique(h, v)
  {
  }

  lemma AgreeExtend(h: Heap, cs: Heap, v: HVal)
    requires HeapOk(h) && ValOk(h, v)
    ensures Agree(h, h + cs, v)
  {
    if v.HRef? {
      assert CellOk(h, h[v.a]);
      forall k: nat, b: Addr | HoldsAt(h[v.a], k, b) && !MovedAt(h[v.a], k)
        ensures b < |h| && (h + cs)[b] == h[b]
      {
        assert FieldOk(h, h[v.a].vals[k]);
      }
    }
  }

  lemma AgreeWrite(h: Heap, a: Addr, c: Cell, v: HVal)
    requires HeapOk(h) && ValOk(h, v) && a < |h| && a != EMPTY && !Reaches(h, v, a)
    ensures Agree(h, h[a := c], v)
  {
    if v.HRef? {
      assert CellOk(h, h[v.a]);
      forall k: nat, b: Addr | HoldsAt(h[v.a], k, b) && !MovedAt(h[v.a], k)
        ensures b < |h| && h[a := c][b] == h[b]
      {
        assert FieldOk(h, h[v.a].vals[k]);
        assert b != a;
      }
    }
  }

  lemma AgreeKeeps(h: Heap, h': Heap, P: set<Addr>, v: HVal)
    requires HeapOk(h) && HeapOk(h') && ValOk(h, v) && Keeps(h, h', P)
    requires forall b: Addr :: Reaches(h, v, b) ==> b in P
    ensures Agree(h, h', v)
  {
    if v.HRef? {
      assert CellOk(h, h[v.a]);
      assert v.a != EMPTY ==> Reaches(h, v, v.a);
      forall k: nat, b: Addr | HoldsAt(h[v.a], k, b) && !MovedAt(h[v.a], k)
        ensures b < |h| && b < |h'| && h'[b] == h[b]
      {
        assert FieldOk(h, h[v.a].vals[k]);
        if b != EMPTY {
          assert CellReaches(h[v.a], b);
          assert Reaches(h, v, b);
        }
      }
    }
  }

  // ── updates that only shrink what is held and owned ──

  ghost predicate Shrinks(h: Heap, fr: Frame, h': Heap, fr': Frame) {
    && HeapOk(h') && |fr'.slots| == |fr'.own| && |h| <= |h'|
    && (forall i: Slot :: ValOk(h', Get(fr', i)))
    && (forall i: Slot, b: Addr :: Reaches(h', Get(fr', i), b) ==> Reaches(h, Get(fr, i), b))
    && (forall i: Slot :: Owned(fr', i) ==> Owned(fr, i) && FieldsUnique(h', Get(fr', i)))
    && (forall i: Slot, b: Addr :: Owned(fr', i) && Owns(h', Get(fr', i), b) ==> Owns(h, Get(fr, i), b))
  }

  lemma ShrinkOk(h: Heap, fr: Frame, h': Heap, fr': Frame, o: Outside)
    requires Disciplined(h, fr, o) && Shrinks(h, fr, h', fr')
    ensures Disciplined(h', fr', o)
  {
    forall i: Slot | Owned(fr', i)
      ensures Exclusive(h', fr', o.kept, i)
    {
      assert Exclusive(h, fr, o.kept, i);
    }
    forall j: Slot | j in o.escaping
      ensures Free(h', Get(fr', j), o.lent)
    {
      assert Free(h, Get(fr, j), o.lent);
    }
  }

  /** Every slot sees the heap as before. */
  lemma AgreeShrinks(h: Heap, fr: Frame, h': Heap, fr': Frame)
    requires |fr'.slots| == |fr'.own| && HeapOk(h') && |h| <= |h'|
    requires forall i: Slot :: ValOk(h, Get(fr, i)) && (Owned(fr, i) ==> FieldsUnique(h, Get(fr, i)))
    requires forall i: Slot :: Get(fr', i) == Get(fr, i) || Get(fr', i) == HNil
    requires forall i: Slot :: Owned(fr', i) ==> Owned(fr, i)
    requires forall i: Slot :: Agree(h, h', Get(fr, i))
    ensures Shrinks(h, fr, h', fr')
  {
    forall i: Slot
      ensures ValOk(h', Get(fr', i))
      ensures forall b: Addr :: Reaches(h', Get(fr', i), b) ==> Reaches(h, Get(fr, i), b)
      ensures Owned(fr', i) ==> FieldsUnique(h', Get(fr', i))
      ensures forall b: Addr :: Owned(fr', i) && Owns(h', Get(fr', i), b) ==> Owns(h, Get(fr, i), b)
    {
      AgreeSame(h, h', Get(fr, i));
      assert Agree(h, h', Get(fr, i));
    }
  }
}
