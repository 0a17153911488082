/** Crossing a call: what the callee must respect, and why the caller may go on afterwards. */
module CallRefinement {
  import opened ProcSyntax
  import V = ValueMachine
  import opened MoveAnalysis
  import opened OwnershipMachine
  import opened Ownership
  import opened OwnershipUpdates
  import opened Simulation
  import opened Arguments
  import opened ArgumentRefinement
  import opened RhsRefinement
  import opened ValueRefinement

  ghost predicate Held(h: Heap, fr: Frame, b: Addr) {
    exists j: Slot :: Reaches(h, Get(fr, j), b)
  }

  ghost predicate HeldOwned(h: Heap, fr: Frame, b: Addr) {
    exists j: Slot :: Owned(fr, j) && Owns(h, Get(fr, j), b)
  }

  ghost function ReachSet(h: Heap, fr: Frame): set<Addr> {
    set b: Addr | 0 <= b < |h| && Held(h, fr, b)
  }

  ghost function OwnSet(h: Heap, fr: Frame): set<Addr> {
    set b: Addr | 0 <= b < |h| && HeldOwned(h, fr, b)
  }

  /** A callee must leave alone all the caller holds, and let out nothing the caller still owns. */
  ghost function CalleeOutside(h: Heap, fr: Frame, o: Outside, pr: Proc): Outside {
    Outside(o.kept + ReachSet(h, fr), o.lent + OwnSet(h, fr), Escapes(pr.ints, pr.body))
  }

  lemma CalleeOutsideOk(h: Heap, fr: Frame, o: Outside, pr: Proc)
    requires Disciplined(h, fr, o)
    ensures var o' := CalleeOutside(h, fr, o, pr); o'.lent <= o'.kept && Within(o'.kept, h)
  {
    forall b | b in OwnSet(h, fr) ensures b in ReachSet(h, fr) {
      var j: Slot :| Owned(fr, j) && Owns(h, Get(fr, j), b);
      OwnsReaches(h, Get(fr, j), b);
    }
  }

  /** A parameter that may let its value out was given nothing the caller lent or still owns. */
  lemma EscapingFree(h: Heap, fr: Frame, o: Outside, prog: seq<Proc>, p: nat, ts: seq<Temp>, vs: seq<V.Val>,
          args: seq<Arg>, j: nat)
    requires Waiting(h, fr, o, ts, vs, args, Callee(prog, p)) && p < |prog|
    requires j < |ts| && j in Escapes(prog[p].ints, prog[p].body)
    ensures Free(h, ts[j].v, CalleeOutside(h, fr, o, prog[p]).lent)
  {
    forall b | b in CalleeOutside(h, fr, o, prog[p]).lent
      ensures !Reaches(h, ts[j].v, b)
    {
      if b in o.lent {
        assert Free(h, ts[j].v, o.lent);
      } else {
        var k: Slot :| Owned(fr, k) && Owns(h, Get(fr, k), b);
        assert !LentTo(args, Callee(prog, p), j, k);
      }
    }
  }

  lemma EntryExclusive(h: Heap, fr: Frame, o: Outside, prog: seq<Proc>, p: nat, ts: seq<Temp>, vs: seq<V.Val>,
          args: seq<Arg>, i: nat)
    requires Waiting(h, fr, o, ts, vs, args, Callee(prog, p)) && p < |prog| && |ts| == prog[p].nparams
    requires Owned(EntryFrame(prog[p], ts), i)
    ensures Exclusive(h, EntryFrame(prog[p], ts), CalleeOutside(h, fr, o, prog[p]).kept, i)
  {
    var fr' := EntryFrame(prog[p], ts);
    assert i < |ts| && ts[i].owned && Get(fr', i) == ts[i].v;
    assert Alone(h, fr, o.kept, ts, i);
    forall b: Addr | Owns(h, ts[i].v, b)
      ensures b !in CalleeOutside(h, fr, o, prog[p]).kept
      ensures forall j: Slot :: j != i ==> !Reaches(h, Get(fr', j), b)
    {
      forall j: Slot | j != i ensures !Reaches(h, Get(fr', j), b) {
        if j < |ts| { assert !Reaches(h, ts[j].v, b); }
      }
    }
  }

  /** The callee's frame starts disciplined, every parameter standing for its argument. */
  lemma EntryOk(h: Heap, fr: Frame, o: Outside, prog: seq<Proc>, p: nat, ts: seq<Temp>, vs: seq<V.Val>, args: seq<Arg>,
          R: set<nat>)
    requires Waiting(h, fr, o, ts, vs, args, Callee(prog, p)) && p < |prog| && |ts| == prog[p].nparams
    ensures var pr := prog[p];
            && Disciplined(h, EntryFrame(pr, ts), CalleeOutside(h, fr, o, pr))
            && SimAll(h, EntryFrame(pr, ts), V.EntryEnv(pr, vs), ProcEvents(pr), R, {})
  {
    hide ProcEvents;
    var pr := prog[p];
    var fr' := EntryFrame(pr, ts);
    var o' := CalleeOutside(h, fr, o, pr);
    CalleeOutsideOk(h, fr, o, pr);
    forall i: Slot | Owned(fr', i) ensures Exclusive(h, fr', o'.kept, i) {
      EntryExclusive(h, fr, o, prog, p, ts, vs, args, i);
    }
    forall j: Slot | j in o'.escaping ensures Free(h, Get(fr', j), o'.lent) {
      if j < |ts| { EscapingFree(h, fr, o, prog, p, ts, vs, args, j); }
    }
    forall x: Slot ensures FullSim(h, Get(fr', x), V.Get(V.EntryEnv(pr, vs), x)) && ValOk(h, Get(fr', x)) {
      if x < |ts| { assert FullSim(h, ts[x].v, vs[x]); }
    }
    forall x: Slot ensures Fit(h, Get(fr', x), V.Get(V.EntryEnv(pr, vs), x), ProcEvents(pr), x, R) {
      FullFit(h, Get(fr', x), V.Get(V.EntryEnv(pr, vs), x), ProcEvents(pr), x, R);
    }
  }

  /** Back in the caller: its slots see the heap as before, and the result is in flight. */
  lemma ReturnOk(h: Heap, fr: Frame, o: Outside, pr: Proc, h': Heap, t: Temp, v: V.Val)
    requires Disciplined(h, fr, o) && Keeps(h, h', CalleeOutside(h, fr, o, pr).kept)
    requires Handed(h', t, CalleeOutside(h, fr, o, pr), v)
    ensures InFlight(h', fr, o, t, v) && Keeps(h, h', o.kept)
    ensures forall j: Slot :: Agree(h, h', Get(fr, j))
  {
    var o' := CalleeOutside(h, fr, o, pr);
    forall j: Slot
      ensures Agree(h, h', Get(fr, j))
      ensures Owned(fr, j) ==> FieldsUnique(h, Get(fr, j))
      ensures forall b: Addr :: Reaches(h', Get(fr, j), b) <==> Reaches(h, Get(fr, j), b)
      ensures forall b: Addr :: Owns(h', Get(fr, j), b) <==> Owns(h, Get(fr, j), b)
      ensures forall b: Addr :: Reaches(h, Get(fr, j), b) ==> b in o'.kept
      ensures forall b: Addr :: Owned(fr, j) && Owns(h, Get(fr, j), b) ==> b in o'.lent
    {
      FieldsBelow(h, Get(fr, j));
      AgreeKeeps(h, h', o'.kept, Get(fr, j));
      AgreeSame(h, h', Get(fr, j));
      assert Owned(fr, j) ==> Exclusive(h, fr, o.kept, j);
      forall b: Addr | Owns(h, Get(fr, j), b) ensures b < |h| { OwnsReaches(h, Get(fr, j), b); }
    }
    AgreeShrinks(h, fr, h', fr);
    ShrinkOk(h, fr, h', fr, o);
  }
}
