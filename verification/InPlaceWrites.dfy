/** What ownership is for: a write through a slot that owns its value copies nothing. */
module InPlaceWrites {
  import opened ProcSyntax
  import opened MoveAnalysis
  import opened OwnershipMachine

  /** No cell was made, and the slot still refers to the cell it did and owns it. */
  ghost predicate InPlace(h: Heap, fr: Frame, x: Slot, out: Out) {
    out.Norm? && |out.h| == |h| && Get(out.fr, x) == Get(fr, x) && Owned(out.fr, x)
  }

  /** One cell was made, which the slot now owns, and no cell there was changed. */
  ghost predicate CopiedOnce(h: Heap, x: Slot, out: Out) {
    out.Norm? && |out.h| == |h| + 1 && out.h[..|h|] == h && Get(out.fr, x) == HRef(|h|) && Owned(out.fr, x)
  }

  ghost predicate HasSlot(fr: Frame, x: Slot) {
    x < |fr.slots| && x < |fr.own|
  }

  /** `xs = append(xs, e)` */
  lemma AppendInPlace(h: Heap, fr: Frame, ints: seq<bool>, x: Slot, e: IntExpr)
    requires HasSlot(fr, x) && !IsInt(ints, x) && IsList(h, Get(fr, x)) && EvalInt(h, fr, e).Ok?
    ensures var out := ExecAppend(h, fr, ints, x, e);
      if Owned(fr, x) && Get(fr, x).a != EMPTY then InPlace(h, fr, x, out) else CopiedOnce(h, x, out)
  {
    hide EvalInt;
  }

  /** `xs[i] = v`: in place, or the list is copied, once, for this write and every later one. */
  lemma IndexSetInPlace(h: Heap, fr: Frame, x: Slot, i: IntExpr, v: IntExpr)
    requires HasSlot(fr, x) && ExecIndexSet(h, fr, x, i, v).Norm?
    ensures var out := ExecIndexSet(h, fr, x, i, v);
      if Owned(fr, x) then InPlace(h, fr, x, out) else CopiedOnce(h, x, out)
  {
    hide EvalInt;
  }

  /** `x.f = e` for an int, a fresh value or a local handed over or shared. */
  lemma FieldSetInPlace(h: Heap, fr: Frame, pr: Proc, x: Slot, f: nat, a: Arg, q: nat)
    requires HasSlot(fr, x) && !a.ArgField? && (a.ArgLocal? ==> a.x != x) && ExecFieldSet(h, fr, pr, x, f, a, q).Norm?
    ensures var out := ExecFieldSet(h, fr, pr, x, f, a, q);
      if Owned(fr, x) then InPlace(h, fr, x, out) else CopiedOnce(h, x, out)
  {
    hide EvalInt, Moves;
  }

  /** `x.f = append(x.f, e)` */
  lemma FieldAppendInPlace(h: Heap, fr: Frame, x: Slot, f: nat, e: IntExpr)
    requires HasSlot(fr, x) && IsStruct(h, Get(fr, x)) && f < |h[Get(fr, x).a].vals| && EvalInt(h, fr, e).Ok?
    requires Owned(fr, x) && FieldOwned(h[Get(fr, x).a], f) && IsList(h, h[Get(fr, x).a].vals[f])
    requires h[Get(fr, x).a].vals[f].a != EMPTY
    ensures InPlace(h, fr, x, ExecFieldAppend(h, fr, x, f, e))
  {
    hide EvalInt;
  }

  /** A value comes owned when it was made for the slot, or handed over by a local that owned it and is
    * not read again; handing it over makes no cell. */
  lemma MovedIsOwned(prog: seq<Proc>, fuel: nat, pr: Proc, x: Slot, y: Slot, q: nat, h: Heap, fr: Frame)
    requires HasSlot(fr, x) && HasSlot(fr, y) && x != y && !IsInt(pr.ints, x) && !IsInt(pr.ints, y) && Moves(pr, q)
    ensures var out := ExecSimple(prog, fuel, pr, Let(x, Plain(ArgLocal(y))), q, h, fr);
      && out.Norm? && out.h == h && Get(out.fr, x) == Get(fr, y) && (Owned(out.fr, x) <==> Owned(fr, y))
      && Get(out.fr, y) == HNil
  {
    hide Moves;
  }

  lemma MadeIsOwned(prog: seq<Proc>, fuel: nat, pr: Proc, x: Slot, r: Rhs, q: nat, h: Heap, fr: Frame)
    requires HasSlot(fr, x) && !IsInt(pr.ints, x) && (r.ListLit? || r.Append?)
    requires ExecSimple(prog, fuel, pr, Let(x, r), q, h, fr).Norm?
    ensures Owned(ExecSimple(prog, fuel, pr, Let(x, r), q, h, fr).fr, x)
  {
    hide Moves, EvalInt, EvalInts, EvalArgs;
  }
}
