/** The engine in its own form: an invocation's slots and ownership bits are arrays written in place,
  * the heap is updated where it stands, and a loop statement is a loop.  Every method leaves exactly
  * the state the machine's functions give.
  */
module Invocation {
  import opened ProcSyntax
  import opened MoveAnalysis
  import opened OwnershipMachine

  class Memory {
    var heap: Heap

    constructor (h: Heap)
      ensures heap == h
    {
      heap := h;
    }
  }

  /** `pfr` */
  class Pfr {
    const slots: array<HVal>
    const own: array<bool>

    /** A fresh frame: arguments in their parameters, owned where they were handed over owned. */
    constructor (pr: Proc, ts: seq<Temp>)
      ensures fresh(slots) && fresh(own) && View() == EntryFrame(pr, ts)
    {
      var fr := EntryFrame(pr, ts);
      slots := new HVal[|fr.slots|](i requires 0 <= i < |fr.slots| => fr.slots[i]);
      own := new bool[|fr.own|](i requires 0 <= i < |fr.own| => fr.own[i]);
      new;
      assert slots[..] == fr.slots && own[..] == fr.own;
    }

    function View(): Frame
      reads slots, own
    {
      Frame(slots[..], own[..])
    }

    /** `pfr.set` */
    method Set(x: Slot, t: Temp)
      modifies slots, own
      ensures View() == Put(old(View()), x, t)
    {
      if x < slots.Length && x < own.Length {
        slots[x] := t.v;
        own[x] := t.owned;
      }
    }

    method Bind(ints: seq<bool>, x: Slot, t: Temp)
      modifies slots, own
      ensures View() == OwnershipMachine.Bind(old(View()), ints, x, t)
    {
      if IsInt(ints, x) { Set(x, Temp(HInt(AsInt(t.v)), false)); } else { Set(x, t); }
    }

    method Disown(x: Slot)
      modifies slots, own
      ensures View() == OwnershipMachine.Disown(old(View()), x)
    {
      Set(x, Temp(Get(View(), x), false));
    }

    /** `pfr.mutable`: the slot's value ready for an in-place write, copied first unless owned. */
    method Mutable(m: Memory, x: Slot)
      modifies m, slots, own
      ensures (m.heap, View()) == OwnershipMachine.Mutable(old(m.heap), old(View()), x)
    {
      var v := Get(View(), x);
      if !Owned(View(), x) && v.HRef? && v.a < |m.heap| {
        m.heap := m.heap + [CloneCell(m.heap[v.a])];
        Set(x, Temp(HRef(|m.heap| - 1), true));
      }
    }

    /** A retained read of a whole local. */
    method ReadLocal(m: Memory, x: Slot, move: bool, keep: bool) returns (t: Temp)
      modifies slots, own
      ensures ArgOk(m.heap, View(), t) == OwnershipMachine.ReadLocal(m.heap, old(View()), x, move, keep)
    {
      var v := Get(View(), x);
      if move {
        t := Temp(v, Owned(View(), x));
        Set(x, Temp(HNil, false));
      } else {
        t := Temp(v, false);
        if !keep { Disown(x); }
      }
    }

    /** `takePath`: a field handed over is given up by its struct, in the struct. */
    method TakeField(m: Memory, x: Slot, f: nat, move: bool) returns (r: Result<Temp>)
      modifies m
      ensures match OwnershipMachine.TakeField(old(m.heap), View(), x, f, move)
              case ArgErr(e) => r == Err(e) && m.heap == old(m.heap)
              case ArgOk(h, fr, t) => r == Ok(t) && m.heap == h && View() == fr
    {
      var v := Get(View(), x);
      if !IsStruct(m.heap, v) { return Err(NotStruct); }
      var c := m.heap[v.a];
      if f >= |c.vals| { return Ok(Temp(HNil, false)); }
      if Owned(View(), x) && FieldOwned(c, f) {
        m.heap := m.heap[v.a := GiveUp(c, f, move)];
        return Ok(Temp(c.vals[f], move));
      }
      r := Ok(Temp(c.vals[f], false));
    }

    method ReadArg(m: Memory, ints: seq<bool>, a: Arg, move: bool, keep: bool) returns (r: Result<Temp>)
      modifies m, slots, own
      ensures match EvalArg(old(m.heap), old(View()), ints, a, move, keep)
              case ArgErr(e) => r == Err(e)
              case ArgOk(h, fr, t) => r == Ok(t) && m.heap == h && View() == fr
    {
      match a {
        case ArgInt(e) =>
          var n := EvalInt(m.heap, View(), e);
          r := if n.Err? then Err(n.fault) else Ok(Temp(HInt(n.value), FreshInt(e)));
        case ArgLocal(x) =>
          if IsInt(ints, x) {
            r := Ok(Temp(HInt(AsInt(Get(View(), x))), false));
          } else {
            var t := ReadLocal(m, x, move, keep);
            r := Ok(t);
          }
        case ArgField(x, f) => r := TakeField(m, x, f, move);
      }
    }

    /** Arguments are evaluated left to right; each may empty a slot or take a field. */
    method ReadArgs(m: Memory, pr: Proc, args: seq<Arg>, q: nat, borrow: nat -> bool) returns (r: Result<seq<Temp>>)
      modifies m, slots, own
      ensures match EvalArgs(old(m.heap), old(View()), pr, args, q, borrow, [])
              case ArgsErr(e) => r == Err(e)
              case ArgsOk(h, fr, ts) => r == Ok(ts) && m.heap == h && View() == fr
    {
      hide Moves, EvalArg, ArgLen, EvalInt;
      var done: seq<Temp> := [];
      var at: nat := q;
      ghost var all := EvalArgs(m.heap, View(), pr, args, q, borrow, []);
      while |done| < |args|
        invariant |done| <= |args|
        invariant EvalArgs(m.heap, View(), pr, args, at, borrow, done) == all
        decreases |args| - |done|
      {
        var a := args[|done|];
        var t := ReadArg(m, pr.ints, a, Moves(pr, at), borrow(|done|));
        if t.Err? { return Err(t.fault); }
        at := at + ArgLen(a);
        done := done + [t.value];
      }
      r := Ok(done);
    }

    /** `listGrow`: in place, except that the shared `[]` is never written. */
    method Grow(m: Memory, v: HVal, n: int) returns (grown: HVal)
      requires IsList(m.heap, v)
      modifies m
      ensures (m.heap, grown) == OwnershipMachine.Grow(old(m.heap), v, n)
    {
      if v.a == EMPTY {
        grown := HRef(|m.heap|);
        m.heap := m.heap + [ListCell([n])];
      } else {
        grown := v;
        m.heap := m.heap[v.a := ListCell(m.heap[v.a].xs + [n])];
      }
    }

    method Copy(m: Memory, v: HVal, n: int) returns (copied: HVal)
      modifies m
      ensures (m.heap, copied) == AppendCopy(old(m.heap), v, n)
    {
      copied := HRef(|m.heap|);
      m.heap := m.heap + [ListCell(ListOf(m.heap, v) + [n])];
    }

    /** `xs = append(xs, e)` */
    method AppendTo(m: Memory, ints: seq<bool>, x: Slot, e: IntExpr) returns (sig: Signal)
      modifies m, slots, own
      ensures Gives(ExecAppend(old(m.heap), old(View()), ints, x, e), sig, m.heap, View())
    {
      var n := EvalInt(m.heap, View(), e);
      if n.Err? { return Faulted(n.fault); }
      var v := Get(View(), x);
      if !IsInt(ints, x) && IsList(m.heap, v) && Owned(View(), x) {
        var grown := Grow(m, v, n.value);
        Set(x, Temp(grown, true));
      } else {
        var copied := Copy(m, v, n.value);
        Bind(ints, x, Temp(copied, true));
      }
      sig := Finished;
    }

    /** `xs[i] = v` */
    method WriteIndex(m: Memory, x: Slot, i: IntExpr, v: IntExpr) returns (sig: Signal)
      modifies m, slots, own
      ensures Gives(ExecIndexSet(old(m.heap), old(View()), x, i, v), sig, m.heap, View())
    {
      if !IsList(m.heap, Get(View(), x)) { return Faulted(NotIndexable); }
      var k := EvalInt(m.heap, View(), i);
      if k.Err? { return Faulted(k.fault); }
      if !(0 <= k.value < |m.heap[Get(View(), x).a].xs|) { return Faulted(OutOfBounds); }
      var n := EvalInt(m.heap, View(), v);
      if n.Err? { return Faulted(n.fault); }
      Mutable(m, x);
      var u := Get(View(), x);
      if !(IsList(m.heap, u) && k.value < |m.heap[u.a].xs|) { return Faulted(NotIndexable); }
      m.heap := m.heap[u.a := ListCell(m.heap[u.a].xs[k.value := n.value])];
      sig := Finished;
    }

    method Store(m: Memory, x: Slot, f: nat, t: Temp) returns (sig: Signal)
      modifies m, slots, own
      ensures Gives(StoreField(old(m.heap), old(View()), x, f, t), sig, m.heap, View())
    {
      if IsStruct(m.heap, t.v) { return Faulted(NotFlat); }
      Mutable(m, x);
      var v := Get(View(), x);
      if !(IsStruct(m.heap, v) && f < |m.heap[v.a].vals|) { return Faulted(NoField); }
      m.heap := m.heap[v.a := SetField(m.heap[v.a], f, t)];
      sig := Finished;
    }

    /** `x.f = a` */
    method WriteField(m: Memory, pr: Proc, x: Slot, f: nat, a: Arg, q: nat) returns (sig: Signal)
      modifies m, slots, own
      ensures Gives(ExecFieldSet(old(m.heap), old(View()), pr, x, f, a, q), sig, m.heap, View())
    {
      if !IsStruct(m.heap, Get(View(), x)) { return Faulted(NotStruct); }
      if f >= |m.heap[Get(View(), x).a].vals| { return Faulted(NoField); }
      var t := ReadArg(m, pr.ints, a, a.ArgLocal? && Moves(pr, q + 1), false);
      if t.Err? { return Faulted(t.fault); }
      sig := Store(m, x, f, t.value);
    }

    /** `x.f = append(x.f, e)` */
    method AppendField(m: Memory, x: Slot, f: nat, e: IntExpr) returns (sig: Signal)
      modifies m, slots, own
      ensures Gives(ExecFieldAppend(old(m.heap), old(View()), x, f, e), sig, m.heap, View())
    {
      var v := Get(View(), x);
      if !IsStruct(m.heap, v) { return Faulted(NotStruct); }
      if f >= |m.heap[v.a].vals| { return Faulted(NoField); }
      var n := EvalInt(m.heap, View(), e);
      if n.Err? { return Faulted(n.fault); }
      var fv := m.heap[v.a].vals[f];
      if Owned(View(), x) && FieldOwned(m.heap[v.a], f) && IsList(m.heap, fv) {
        var grown := Grow(m, fv, n.value);
        if v.a < |m.heap| && m.heap[v.a].StructCell? {
          m.heap := m.heap[v.a := SetField(m.heap[v.a], f, Temp(grown, true))];
        }
        sig := Finished;
      } else {
        Mutable(m, x);
        var copied := Copy(m, fv, n.value);
        sig := Store(m, x, f, Temp(copied, true));
      }
    }

    /** `x.f[i] = v` through its temporary. */
    method WriteNested(m: Memory, pr: Proc, x: Slot, f: nat, w: Slot, i: IntExpr, v: IntExpr, q: nat)
            returns (sig: Signal)
      modifies m, slots, own
      ensures Gives(ExecNestedSet(old(m.heap), old(View()), pr, x, f, w, i, v, q), sig, m.heap, View())
    {
      hide ExecIndexSet, ExecFieldSet, OwnershipMachine.TakeField, Moves;
      var s := Get(View(), x);
      var held := Owned(View(), x) && IsStruct(m.heap, s) && FieldOwned(m.heap[s.a], f);
      var t := TakeField(m, x, f, false);
      if t.Err? { return Faulted(t.fault); }
      Set(w, Temp(t.value.v, held));
      assert TakeNested(old(m.heap), old(View()), x, f, w) == Norm(m.heap, View());
      sig := WriteIndex(m, w, i, v);
      if sig.Finished? {
        sig := WriteField(m, pr, x, f, ArgLocal(w), q + 4 + |IntEvents(i)| + |IntEvents(v)|);
      }
    }

    method GiveBack(m: Memory, pr: Proc, a: Arg, q: nat) returns (sig: Signal)
      modifies m, slots, own
      ensures Gives(ExecReturn(old(m.heap), old(View()), pr, a, q), sig, m.heap, View())
    {
      if a.ArgLocal? {
        if IsInt(pr.ints, a.x) { return Yielded(Temp(HInt(AsInt(Get(View(), a.x))), false)); }
        return Yielded(Temp(Get(View(), a.x), Owned(View(), a.x)));
      }
      var t := ReadArg(m, pr.ints, a, Moves(pr, q), false);
      sig := if t.Err? then Faulted(t.fault) else Yielded(t.value);
    }

    /** `ownedExpr`: the value a statement binds, and whether it comes owned. */
    method RunRhs(prog: seq<Proc>, fuel: nat, pr: Proc, r: Rhs, target: int, q: nat, m: Memory) returns (sig: Signal)
      modifies m, slots, own
      ensures GivesRhs(EvalRhs(prog, fuel, pr, r, target, q, old(m.heap), old(View())), sig, m.heap, View())
      decreases fuel, 2, Skip
    {
      hide Moves;
      match r {
        case Plain(a) =>
          var t := ReadArg(m, pr.ints, a, target < 0 && Moves(pr, q), false);
          sig := if t.Err? then Faulted(t.fault) else Yielded(t.value);
        case ListLit(es) =>
          var ns := EvalInts(m.heap, View(), es);
          if ns.Err? { return Faulted(ns.fault); }
          sig := Yielded(Temp(if ns.value == [] then HRef(EMPTY) else HRef(|m.heap|), true));
          if ns.value != [] { m.heap := m.heap + [ListCell(ns.value)]; }
        case Append(y, e) =>
          var n := EvalInt(m.heap, View(), e);
          if n.Err? { return Faulted(n.fault); }
          var v := Get(View(), y);
          if IsList(m.heap, v) && y != target && !IsInt(pr.ints, y) && Moves(pr, q) && Owned(View(), y) {
            var grown := Grow(m, v, n.value);
            Set(y, Temp(HNil, false));
            sig := Yielded(Temp(grown, true));
          } else {
            var copied := Copy(m, v, n.value);
            sig := Yielded(Temp(copied, true));
          }
        case StructLit(args) =>
          var ts := ReadArgs(m, pr, args, q, NeverBorrows);
          if ts.Err? { return Faulted(ts.fault); }
          if !Flat(m.heap, ts.value) { return Faulted(NotFlat); }
          sig := Yielded(Temp(HRef(|m.heap|), true));
          m.heap := m.heap + [StructOf(ts.value)];
        case Call(p, args) =>
          var ts := ReadArgs(m, pr, args, q, Callee(prog, p));
          if ts.Err? { return Faulted(ts.fault); }
          sig := Run(prog, fuel, p, m, ts.value);
      }
    }

    method RunSimple(prog: seq<Proc>, fuel: nat, pr: Proc, s: Stmt, p: nat, m: Memory) returns (sig: Signal)
      requires !s.Seq? && !s.If? && !s.Loop?
      modifies m, slots, own
      ensures Gives(ExecSimple(prog, fuel, pr, s, p, old(m.heap), old(View())), sig, m.heap, View())
      decreases fuel, 3, Skip
    {
      hide EvalRhs, ExecIndexSet, ExecFieldSet, ExecFieldAppend, ExecNestedSet, ExecReturn, ExecAppend, Moves;
      match s {
        case LetInt(x, e) => sig := SetInt(m, x, e);
        case SetInt(x, e) => sig := SetInt(m, x, e);
        case Let(x, r) =>
          sig := RunRhs(prog, fuel, pr, r, -1, p, m);
          if sig.Yielded? { Bind(pr.ints, x, sig.t); sig := Finished; }
        case Set(x, r) =>
          if r.Append? && r.x == x {
            sig := AppendTo(m, pr.ints, x, r.e);
          } else {
            sig := RunRhs(prog, fuel, pr, r, x, p + 1, m);
            if sig.Yielded? { Bind(pr.ints, x, sig.t); sig := Finished; }
          }
        case IndexSet(x, i, v) => sig := WriteIndex(m, x, i, v);
        case FieldSet(x, f, a) => sig := WriteField(m, pr, x, f, a, p);
        case FieldAppend(x, f, e) => sig := AppendField(m, x, f, e);
        case NestedSet(x, f, w, i, v) => sig := WriteNested(m, pr, x, f, w, i, v, p);
        case Break => sig := Broke;
        case Continue => sig := Continued;
        case Return(a) => sig := GiveBack(m, pr, a, p);
        case _ => sig := Finished;
      }
    }

    method SetInt(m: Memory, x: Slot, e: IntExpr) returns (sig: Signal)
      modifies slots, own
      ensures Gives(ExecInt(m.heap, old(View()), x, e), sig, m.heap, View())
    {
      var n := EvalInt(m.heap, View(), e);
      if n.Err? { return Faulted(n.fault); }
      Set(x, Temp(HInt(n.value), false));
      sig := Finished;
    }

    /** A statement; a loop statement runs as a loop until it ends, breaks, returns or fails. */
    method RunStmt(prog: seq<Proc>, fuel: nat, pr: Proc, s: Stmt, p: nat, m: Memory) returns (sig: Signal)
      modifies m, slots, own
      ensures Gives(Exec(prog, fuel, pr, s, p, old(m.heap), old(View())), sig, m.heap, View())
      decreases fuel, 4, s
    {
      hide ExecSimple, StmtEvents, CondEvents, EvalCond;
      match s {
        case Seq(s1, s2) =>
          sig := RunStmt(prog, fuel, pr, s1, p, m);
          if sig.Finished? { sig := RunStmt(prog, fuel, pr, s2, p + |StmtEvents(pr.ints, s1)|, m); }
        case If(c, s1, s2) =>
          var b := EvalCond(m.heap, View(), c);
          if b.Err? { return Faulted(b.fault); }
          var p1: nat := p + |CondEvents(c)|;
          if b.value {
            sig := RunStmt(prog, fuel, pr, s1, p1, m);
          } else {
            sig := RunStmt(prog, fuel, pr, s2, p1 + |StmtEvents(pr.ints, s1)|, m);
          }
        case Loop(c, body) =>
          var left: nat := fuel;
          ghost var all := Exec(prog, fuel, pr, s, p, m.heap, View());
          while true
            invariant left <= fuel && Exec(prog, left, pr, s, p, m.heap, View()) == all
            decreases left
          {
            var b := EvalCond(m.heap, View(), c);
            if b.Err? { return Faulted(b.fault); }
            if !b.value { return Finished; }
            if left == 0 { return TimedOut; }
            left := left - 1;
            sig := RunStmt(prog, left, pr, body, p + |CondEvents(c)|, m);
            if sig.Broke? { return Finished; }
            if !sig.Finished? && !sig.Continued? { return; }
          }
        case _ => sig := RunSimple(prog, fuel, pr, s, p, m);
      }
    }
  }

  /** How a statement ended. */
  datatype Signal = Finished | Broke | Continued | Yielded(t: Temp) | Faulted(fault: Fault) | TimedOut

  ghost predicate Gives(out: Out, sig: Signal, h: Heap, fr: Frame) {
    match out
    case Norm(h1, fr1) => sig.Finished? && h == h1 && fr == fr1
    case Brk(h1, fr1) => sig.Broke? && h == h1 && fr == fr1
    case Cont(h1, fr1) => sig.Continued? && h == h1 && fr == fr1
    case Ret(h1, t) => sig == Yielded(t) && h == h1
    case Fail(f) => sig == Faulted(f)
    case Timeout => sig.TimedOut?
  }

  ghost predicate GivesRhs(out: RhsOut, sig: Signal, h: Heap, fr: Frame) {
    match out
    case RhsOk(h1, fr1, t) => sig == Yielded(t) && h == h1 && fr == fr1
    case RhsErr(f) => sig == Faulted(f)
    case RhsTimeout => sig.TimedOut?
  }

  ghost predicate GivesCall(out: CallOut, sig: Signal, h: Heap) {
    match out
    case Returned(h1, t) => sig == Yielded(t) && h == h1
    case Failed(f) => sig == Faulted(f)
    case OutOfFuel => sig.TimedOut?
  }

  /** `runCodeOwned`: a call on a frame of its own. */
  method Run(prog: seq<Proc>, fuel: nat, p: nat, m: Memory, ts: seq<Temp>) returns (sig: Signal)
    modifies m
    ensures GivesCall(RunProc(prog, fuel, p, old(m.heap), ts), sig, m.heap)
    decreases fuel, 1, Skip
  {
    hide Exec;
    if p >= |prog| { return Faulted(UnknownProc); }
    if |ts| != prog[p].nparams { return Faulted(Arity); }
    if fuel == 0 { return TimedOut; }
    var fr := new Pfr(prog[p], ts);
    sig := fr.RunStmt(prog, fuel - 1, prog[p], prog[p].body, prog[p].nparams, m);
    if sig.Finished? || sig.Broke? || sig.Continued? { sig := Yielded(Temp(HNil, false)); }
  }
}
