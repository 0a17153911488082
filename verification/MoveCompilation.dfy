/** Compiling a whole body: the statements drive the compiler's tables in textual order, and at the
  * end every argument that may hand its value over is decided exactly as `MoveAnalysis.Moves` says.
  */
module MoveCompilation {
  import opened ProcSyntax
  import opened MoveAnalysis
  import opened MoveCompiler

  lemma PlainConcat(a: Events, b: Events)
    ensures PlainAll(a + b) == PlainAll(a) + PlainAll(b)
  {
  }

  lemma {:induction false} IntsPlain(e: IntExpr)
    ensures PlainAll(IntEvents(e)) == IntEvents(e)
    ensures forall k :: 0 <= k < |IntEvents(e)| ==> IntEvents(e)[k].Use? || IntEvents(e)[k].Path?
  {
    match e
    case Neg(e1) => IntsPlain(e1);
    case Bin(_, l, r) => IntsPlain(l); IntsPlain(r);
    case Index(_, i) => IntsPlain(i);
    case FieldIndex(_, _, i) => IntsPlain(i);
    case _ =>
  }

  /** The verdicts on the self candidates among `es`, compiled from position `base` on, are those of
    * the analysis. */
  ghost predicate Settles(ok: map<nat, bool>, base: nat, es: Events) {
    forall k :: 0 <= k < |es| && es[k].SelfUse? ==> base + k + 1 in ok && ok[base + k + 1] == es[k].last
  }

  ghost predicate Older(was: map<nat, bool>, now: map<nat, bool>, n: nat) {
    forall p :: p in was && p <= n ==> p in now && now[p] == was[p]
  }

  ghost predicate NoSelf(moves: seq<Cand>) {
    forall i :: 0 <= i < |moves| ==> !moves[i].self
  }

  /** What compiling something leaves: its occurrences recorded, its self moves settled. */
  ghost predicate Done(c: Compiler, ev0: Events, ok0: map<nat, bool>, es: Events)
    reads c
  {
    && c.Valid() && NoSelf(c.moves)
    && c.ev == ev0 + PlainAll(es)
    && Settles(c.ok, |ev0|, es)
    && Older(ok0, c.ok, |ev0|)
  }

  lemma DoneThen(c: Compiler, ev0: Events, ok0: map<nat, bool>, es: Events, ev1: Events, ok1: map<nat, bool>,
          more: Events)
    requires ev1 == ev0 + PlainAll(es) && Settles(ok1, |ev0|, es) && Older(ok0, ok1, |ev0|)
    requires Done(c, ev1, ok1, more)
    ensures Done(c, ev0, ok0, es + more)
  {
    PlainConcat(es, more);
    assert (ev0 + PlainAll(es)) + PlainAll(more) == ev0 + PlainAll(es + more);
    var all := es + more;
    forall k | 0 <= k < |all| && all[k].SelfUse? ensures |ev0| + k + 1 in c.ok && c.ok[|ev0| + k + 1] == all[k].last {
      if k < |es| {
        assert es[k] == all[k];
      } else {
        assert more[k - |es|] == all[k];
        assert |ev1| + (k - |es|) + 1 == |ev0| + k + 1;
      }
    }
  }

  /** An int expression only reads. */
  method CompileInt(c: Compiler, e: IntExpr)
    requires c.Valid()
    modifies c
    ensures c.Valid() && c.ev == old(c.ev) + IntEvents(e)
    ensures c.ok == old(c.ok) && c.moves == old(c.moves) && c.loops == old(c.loops)
    decreases e
  {
    hide Tables, MovesOk, FieldMovesOk, LastPos, WholePos, DeclPos, PathReads;
    match e {
      case Lit(_) =>
      case Var(x) => c.Lookup(x);
      case Neg(e1) => CompileInt(c, e1);
      case Bin(_, l, r) => CompileInt(c, l); CompileInt(c, r);
      case Index(x, i) => CompileInt(c, i); c.Lookup(x);
      case Len(x) => c.Lookup(x);
      case FieldInt(x, f) => c.LookupPath(x, f);
      case FieldIndex(x, f, i) => CompileInt(c, i); c.LookupPath(x, f);
      case FieldLen(x, f) => c.LookupPath(x, f);
    }
  }

  method CompileInts(c: Compiler, es: seq<IntExpr>)
    requires c.Valid()
    modifies c
    ensures c.Valid() && c.ev == old(c.ev) + IntsEvents(es)
    ensures c.ok == old(c.ok) && c.moves == old(c.moves) && c.loops == old(c.loops)
  {
    var i := 0;
    while i < |es|
      invariant 0 <= i <= |es| && c.Valid() && c.ev + IntsEvents(es[i..]) == old(c.ev) + IntsEvents(es)
      invariant c.ok == old(c.ok) && c.moves == old(c.moves) && c.loops == old(c.loops)
    {
      assert es[i..][0] == es[i] && es[i..][1..] == es[i + 1..];
      CompileInt(c, es[i]);
      i := i + 1;
    }
    assert es[i..] == [];
  }

  /** One argument, its own verdict still open. */
  method CompileArg(c: Compiler, ints: seq<bool>, a: Arg, target: int)
    requires c.Valid()
    modifies c
    ensures c.Valid() && c.ev == old(c.ev) + PlainAll(ArgEvents(ints, a, target, []))
    ensures c.ok == old(c.ok) && c.loops == old(c.loops)
    ensures c.moves == old(c.moves) + ArgCand(ints, a, target, |c.ev|)
  {
    hide Tables, MovesOk, FieldMovesOk;
    match a {
      case ArgInt(e) => IntsPlain(e); CompileInt(c, e);
      case ArgLocal(x) => if IsInt(ints, x) { c.Lookup(x); } else { c.MoveArg(x, target); }
      case ArgField(x, f) => c.TakePath(x, f);
    }
  }

  /** The candidates an argument list leaves in the table, from position `base` on. */
  function ArgCand(ints: seq<bool>, a: Arg, target: int, pos: nat): seq<Cand> {
    if a.ArgLocal? && !IsInt(ints, a.x) then [Cand(a.x, pos, a.x == target)] else []
  }

  function ArgCands(ints: seq<bool>, args: seq<Arg>, target: int, base: nat): seq<Cand> {
    if args == [] then []
    else
      var next := base + |PlainAll(ArgEvents(ints, args[0], target, []))|;
      ArgCand(ints, args[0], target, next) + ArgCands(ints, args[1..], target, next)
  }

  /** Call arguments or struct literal fields, then `selfMoves`. */
  method CompileArgs(c: Compiler, ints: seq<bool>, args: seq<Arg>, target: int)
    requires c.Valid() && NoSelf(c.moves)
    modifies c
    ensures Done(c, old(c.ev), old(c.ok), ArgsEvents(ints, args, target)) && c.loops == old(c.loops)
  {
    hide ArgsEvents, ArgEvents, ArgCands, PlainAll, Tables, MovesOk, FieldMovesOk, Settles, Older, Stand, Verdict,
         NoSelf;
    ghost var ev0, ok0, moves0 := c.ev, c.ok, c.moves;
    ghost var es, cands := ArgsEvents(ints, args, target), ArgCands(ints, args, target, |ev0|);
    var from := |c.moves|;
    var i := 0;
    assert args[0..] == args;
    while i < |args|
      invariant 0 <= i <= |args| && c.Valid() && c.ok == ok0 && c.loops == old(c.loops)
      invariant c.ev + PlainAll(ArgsEvents(ints, args[i..], target)) == ev0 + PlainAll(es)
      invariant c.moves + ArgCands(ints, args[i..], target, |c.ev|) == moves0 + cands
    {
      ArgStep(ints, args, i, target, c.ev, c.moves);
      CompileArg(c, ints, args[i], target);
      i := i + 1;
    }
    NoArgs(ints, args[i..], target, |c.ev|);
    assert c.ev + [] == c.ev && c.moves + [] == c.moves;
    assert c.moves[from..] == cands && c.moves[..from] == moves0;
    ghost var all := c.moves;
    c.SelfMoves(from);
    assert AllVerdicts(c.ok, c.ev, cands) by {
      forall k | 0 <= k < |cands| && cands[k].self ensures Verdict(c.ok, c.ev, cands[k]) {
        assert all[from + k] == cands[k];
      }
    }
    ArgsSettled(ints, args, target, ev0, ok0, c.ok);
    OthersNoSelf(moves0, cands);
  }

  lemma NoArgs(ints: seq<bool>, args: seq<Arg>, target: int, base: nat)
    requires args == []
    ensures PlainAll(ArgsEvents(ints, args, target)) == [] && ArgCands(ints, args, target, base) == []
  {
  }

  lemma OthersNoSelf(moves: seq<Cand>, ms: seq<Cand>)
    requires NoSelf(moves)
    ensures NoSelf(moves + Others(ms))
  {
    OthersOnly(ms);
    forall i | 0 <= i < |moves + Others(ms)| ensures !(moves + Others(ms))[i].self {
      if i >= |moves| { assert (moves + Others(ms))[i] in Others(ms); }
    }
  }

  lemma {:induction false} OthersOnly(ms: seq<Cand>)
    ensures forall m :: m in Others(ms) ==> !m.self
  {
    if ms != [] { OthersOnly(ms[1..]); }
  }

  /** Compiling argument i takes its occurrences and its candidate off what is still to come. */
  lemma ArgStep(ints: seq<bool>, args: seq<Arg>, i: nat, target: int, ev: Events, moves: seq<Cand>)
    requires i < |args|
    ensures var ev1 := ev + PlainAll(ArgEvents(ints, args[i], target, []));
      var moves1 := moves + ArgCand(ints, args[i], target, |ev1|);
      && ev + PlainAll(ArgsEvents(ints, args[i..], target)) == ev1 + PlainAll(ArgsEvents(ints, args[i + 1..], target))
      && moves + ArgCands(ints, args[i..], target, |ev|) == moves1 + ArgCands(ints, args[i + 1..], target, |ev1|)
  {
    assert args[i..][0] == args[i] && args[i..][1..] == args[i + 1..];
    var rest := ArgsEvents(ints, args[i + 1..], target);
    SameShape(ints, args[i], target, rest);
    PlainConcat(ArgEvents(ints, args[i], target, rest), rest);
    hide ArgEvents, PlainAll, ArgCand;
    var one, more := PlainAll(ArgEvents(ints, args[i], target, [])), PlainAll(rest);
    assert ev + (one + more) == (ev + one) + more;
    var c, cs := ArgCand(ints, args[i], target, |ev + one|), ArgCands(ints, args[i + 1..], target, |ev + one|);
    assert moves + (c + cs) == (moves + c) + cs;
  }

  lemma SameShape(ints: seq<bool>, a: Arg, target: int, rest: Events)
    ensures PlainAll(ArgEvents(ints, a, target, rest)) == PlainAll(ArgEvents(ints, a, target, []))
  {
  }

  ghost predicate AllVerdicts(ok: map<nat, bool>, ev: Events, cands: seq<Cand>) {
    forall i :: 0 <= i < |cands| && cands[i].self ==> Verdict(ok, ev, cands[i])
  }

  /** Settling the candidates of one argument list gives the verdicts of the analysis. */
  lemma ArgsSettled(ints: seq<bool>, args: seq<Arg>, target: int, ev0: Events, ok0: map<nat, bool>, ok: map<nat, bool>)
    requires var cands := ArgCands(ints, args, target, |ev0|);
      Stand(ok0, ok, cands) && AllVerdicts(ok, ev0 + PlainAll(ArgsEvents(ints, args, target)), cands)
    ensures Settles(ok, |ev0|, ArgsEvents(ints, args, target)) && Older(ok0, ok, |ev0|)
  {
    hide ArgsEvents, ArgCands, PlainAll, NoLater, Mentions;
    var es := ArgsEvents(ints, args, target);
    var cands := ArgCands(ints, args, target, |ev0|);
    CandsAfter(ints, args, target, |ev0|);
    forall k | 0 <= k < |es| && es[k].SelfUse? ensures |ev0| + k + 1 in ok && ok[|ev0| + k + 1] == es[k].last {
      SelfCand(ints, args, target, |ev0|, k);
      assert SelfListed(es, cands, |ev0|, k);
      var i :| 0 <= i < |cands| && cands[i] == Cand(es[k].x, |ev0| + k + 1, true);
      assert Verdict(ok, ev0 + PlainAll(es), cands[i]);
      LaterInText(ev0, es, es[k].x, k + 1);
    }
  }

  lemma LaterInText(ev0: Events, es: Events, x: Slot, k: nat)
    requires k <= |es|
    ensures NoLater(ev0 + PlainAll(es), x, |ev0| + k) <==> NoLater(es, x, k)
  {
    NoLaterShift(ev0, PlainAll(es), x, k);
    assert forall q :: 0 <= q < |es| ==> PlainAll(es)[q].x == es[q].x;
  }

  lemma NoLaterShift(a: Events, b: Events, x: Slot, k: nat)
    requires k <= |b|
    ensures NoLater(a + b, x, |a| + k) <==> NoLater(b, x, k)
  {
    if NoLater(a + b, x, |a| + k) {
      forall q | k <= q < |b| ensures b[q].x != x { assert (a + b)[|a| + q] == b[q]; }
    }
  }

  lemma MentionsLater(es: Events, x: Slot)
    ensures NoLater(es, x, 0) <==> !Mentions(es, x)
  {
    if !Mentions(es, x) {
      forall q | 0 <= q < |es| ensures es[q].x != x { assert es[q] in es; }
    }
  }

  lemma {:induction false} CandsAfter(ints: seq<bool>, args: seq<Arg>, target: int, base: nat)
    ensures forall i :: 0 <= i < |ArgCands(ints, args, target, base)| ==>
      ArgCands(ints, args, target, base)[i].pos > base
  {
    if args != [] {
      CandsAfter(ints, args[1..], target, base + |PlainAll(ArgEvents(ints, args[0], target, []))|);
    }
  }

  /** The occurrence at k, if a self occurrence, is a candidate, and its verdict asks about the
    * occurrences after it. */
  ghost predicate SelfListed(es: Events, cands: seq<Cand>, base: nat, k: nat)
    requires k < |es|
  {
    es[k].SelfUse? ==> Cand(es[k].x, base + k + 1, true) in cands && es[k].last == NoLater(es, es[k].x, k + 1)
  }

  lemma ListedHere(es: Events, cands: seq<Cand>, e: Event, rest: Events, here: seq<Cand>, more: seq<Cand>, base: nat)
    requires es == [e] + rest && cands == here + more
    requires e.SelfUse? ==> e.last == !Mentions(rest, e.x) && Cand(e.x, base + 1, true) in here
    ensures SelfListed(es, cands, base, 0)
  {
    MentionsLater(rest, e.x);
    NoLaterShift([e], rest, e.x, 0);
  }

  lemma ListedThere(es: Events, cands: seq<Cand>, first: Events, rest: Events, here: seq<Cand>, more: seq<Cand>,
          base: nat, k: nat)
    requires es == first + rest && cands == here + more && |first| <= k < |es|
    requires SelfListed(rest, more, base + |first|, k - |first|)
    ensures SelfListed(es, cands, base, k)
  {
    hide NoLater;
    assert es[k] == rest[k - |first|];
    NoLaterShift(first, rest, es[k].x, k - |first| + 1);
  }

  /** The first argument's occurrences and candidate, and those of the others. */
  lemma ArgsParts(ints: seq<bool>, args: seq<Arg>, target: int, base: nat) returns (first: Events, here: seq<Cand>,
          self: bool, e: Event)
    requires args != []
    ensures ArgsEvents(ints, args, target) == first + ArgsEvents(ints, args[1..], target)
    ensures ArgCands(ints, args, target, base) == here + ArgCands(ints, args[1..], target, base + |first|)
    ensures self ==> first == [e] && e.SelfUse? && here == [Cand(e.x, base + 1, true)]
    ensures self ==> e.last == !Mentions(ArgsEvents(ints, args[1..], target), e.x)
    ensures !self ==> forall k :: 0 <= k < |first| ==> !first[k].SelfUse?
  {
    var rest := ArgsEvents(ints, args[1..], target);
    first := ArgEvents(ints, args[0], target, rest);
    here := ArgCand(ints, args[0], target, base + |first|);
    SameShape(ints, args[0], target, rest);
    CandsSplit(ints, args, target, base, base + |first|);
    OnlyLocals(ints, args[0], target, rest);
    self := first != [] && first[0].SelfUse?;
    e := if first != [] then first[0] else Use(0);
  }

  lemma {:induction false} SelfCand(ints: seq<bool>, args: seq<Arg>, target: int, base: nat, k: nat)
    requires k < |ArgsEvents(ints, args, target)|
    ensures SelfListed(ArgsEvents(ints, args, target), ArgCands(ints, args, target, base), base, k)
    decreases |args|
  {
    if args == [] { NoArgs(ints, args, target, base); return; }
    hide *;
    var es, cands := ArgsEvents(ints, args, target), ArgCands(ints, args, target, base);
    var first, here, self, e := ArgsParts(ints, args, target, base);
    var rest, more := ArgsEvents(ints, args[1..], target), ArgCands(ints, args[1..], target, base + |first|);
    if k >= |first| {
      SelfCand(ints, args[1..], target, base + |first|, k - |first|);
      ListedThere(es, cands, first, rest, here, more, base, k);
    } else if self {
      ListedHere(es, cands, e, rest, here, more, base);
    } else {
      NotListed(es, cands, first, rest, base, k);
    }
  }

  lemma NotListed(es: Events, cands: seq<Cand>, first: Events, rest: Events, base: nat, k: nat)
    requires es == first + rest && k < |first| && !first[k].SelfUse?
    ensures SelfListed(es, cands, base, k)
  {
  }

  lemma CandsSplit(ints: seq<bool>, args: seq<Arg>, target: int, base: nat, next: nat)
    requires args != [] && next == base + |ArgEvents(ints, args[0], target, [])|
    ensures ArgCands(ints, args, target, base)
      == ArgCand(ints, args[0], target, next) + ArgCands(ints, args[1..], target, next)
  {
  }

  /** A self occurrence is the only one of its argument. */
  lemma OnlyLocals(ints: seq<bool>, a: Arg, target: int, rest: Events)
    ensures var first := ArgEvents(ints, a, target, rest);
      forall k :: 0 <= k < |first| && first[k].SelfUse? ==>
        && |first| == 1 && a.ArgLocal? && !IsInt(ints, a.x) && a.x == target
        && first == [SelfUse(a.x, !Mentions(rest, a.x))]
  {
    if a.ArgInt? { IntsPlain(a.e); }
  }

  // ── the pieces, each leaving the table in order ──

  method Occurs(c: Compiler, x: Slot)
    requires c.Valid() && NoSelf(c.moves)
    modifies c
    ensures Done(c, old(c.ev), old(c.ok), [Use(x)]) && c.loops == old(c.loops)
  {
    c.Lookup(x);
    assert PlainAll([Use(x)]) == [Use(x)];
  }

  method ReadsField(c: Compiler, x: Slot, f: nat)
    requires c.Valid() && NoSelf(c.moves)
    modifies c
    ensures Done(c, old(c.ev), old(c.ok), [Path(x, f)]) && c.loops == old(c.loops)
  {
    c.LookupPath(x, f);
    assert PlainAll([Path(x, f)]) == [Path(x, f)];
  }

  method Declares(c: Compiler, x: Slot)
    requires c.Valid() && NoSelf(c.moves)
    modifies c
    ensures Done(c, old(c.ev), old(c.ok), [Decl(x)]) && c.loops == old(c.loops)
  {
    c.Declare(x);
    assert PlainAll([Decl(x)]) == [Decl(x)];
  }

  method Reads(c: Compiler, e: IntExpr)
    requires c.Valid() && NoSelf(c.moves)
    modifies c
    ensures Done(c, old(c.ev), old(c.ok), IntEvents(e)) && c.loops == old(c.loops)
  {
    IntsPlain(e);
    CompileInt(c, e);
  }

  lemma {:induction false} IntListPlain(es: seq<IntExpr>)
    ensures PlainAll(IntsEvents(es)) == IntsEvents(es)
    ensures forall k :: 0 <= k < |IntsEvents(es)| ==> !IntsEvents(es)[k].SelfUse?
  {
    if es != [] {
      IntsPlain(es[0]);
      IntListPlain(es[1..]);
    }
  }

  method ReadsAll(c: Compiler, es: seq<IntExpr>)
    requires c.Valid() && NoSelf(c.moves)
    modifies c
    ensures Done(c, old(c.ev), old(c.ok), IntsEvents(es)) && c.loops == old(c.loops)
  {
    IntListPlain(es);
    CompileInts(c, es);
  }

  /** An argument of a statement that assigns no local of its own. */
  method PassesOn(c: Compiler, ints: seq<bool>, a: Arg)
    requires c.Valid() && NoSelf(c.moves)
    modifies c
    ensures Done(c, old(c.ev), old(c.ok), ArgEvents(ints, a, -1, [])) && c.loops == old(c.loops)
  {
    OnlyLocals(ints, a, -1, []);
    CompileArg(c, ints, a, -1);
  }

  method Retains(c: Compiler, a: Arg)
    requires c.Valid() && NoSelf(c.moves)
    modifies c
    ensures Done(c, old(c.ev), old(c.ok), RetainedEvents(a)) && c.loops == old(c.loops)
  {
    match a {
      case ArgInt(e) => Reads(c, e);
      case ArgLocal(x) => Occurs(c, x);
      case ArgField(x, f) => ReadsField(c, x, f);
    }
  }

  method CompileRhs(c: Compiler, ints: seq<bool>, r: Rhs, target: int)
    requires c.Valid() && NoSelf(c.moves) && target >= -1
    modifies c
    ensures Done(c, old(c.ev), old(c.ok), RhsEvents(ints, r, target)) && c.loops == old(c.loops)
  {
    hide Done, Tables, MovesOk, FieldMovesOk, ArgsEvents, ArgEvents, RetainedEvents, IntsEvents, IntEvents;
    ghost var ev0, ok0 := c.ev, c.ok;
    match r {
      case Plain(a) => if target < 0 { PassesOn(c, ints, a); } else { Retains(c, a); }
      case ListLit(es) => ReadsAll(c, es);
      case StructLit(args) => CompileArgs(c, ints, args, -1);
      case Call(_, args) => CompileArgs(c, ints, args, target);
      case Append(y, e) =>
        if y == target {
          Reads(c, e);
          ghost var ev1, ok1 := c.ev, c.ok;
          DoneTells(c, ev0, ok0, IntEvents(e));
          Occurs(c, y);
          DoneThen(c, ev0, ok0, IntEvents(e), ev1, ok1, [Use(y)]);
          DoneTells(c, ev0, ok0, IntEvents(e) + [Use(y)]);
          ghost var ev2, ok2 := c.ev, c.ok;
          Reads(c, e);
          DoneThen(c, ev0, ok0, IntEvents(e) + [Use(y)], ev2, ok2, IntEvents(e));
        } else {
          ghost var first := [if IsInt(ints, y) then Use(y) else MoveUse(y)];
          if IsInt(ints, y) { Occurs(c, y); } else { PassesOn(c, ints, ArgLocal(y)); LocalArg(ints, y); }
          DoneTells(c, ev0, ok0, first);
          ghost var ev1, ok1 := c.ev, c.ok;
          Reads(c, e);
          DoneThen(c, ev0, ok0, first, ev1, ok1, IntEvents(e));
        }
    }
  }

  lemma LocalArg(ints: seq<bool>, y: Slot)
    requires !IsInt(ints, y)
    ensures ArgEvents(ints, ArgLocal(y), -1, []) == [MoveUse(y)]
  {
  }

  lemma DoneTells(c: Compiler, ev0: Events, ok0: map<nat, bool>, es: Events)
    requires Done(c, ev0, ok0, es)
    ensures c.Valid() && NoSelf(c.moves) && c.ev == ev0 + PlainAll(es) && |c.ev| == |ev0| + |es|
    ensures Settles(c.ok, |ev0|, es) && Older(ok0, c.ok, |ev0|)
  {
  }

  method CompileCond(c: Compiler, cond: Cond)
    requires c.Valid() && NoSelf(c.moves)
    modifies c
    ensures Done(c, old(c.ev), old(c.ok), CondEvents(cond)) && c.loops == old(c.loops)
  {
    hide Done, Tables, MovesOk, FieldMovesOk, IntEvents;
    ghost var ev0, ok0 := c.ev, c.ok;
    Reads(c, cond.l);
    DoneTells(c, ev0, ok0, IntEvents(cond.l));
    ghost var ev1, ok1 := c.ev, c.ok;
    Reads(c, cond.r);
    DoneThen(c, ev0, ok0, IntEvents(cond.l), ev1, ok1, IntEvents(cond.r));
  }

  /** An occurrence of a local, then two int expressions: an index write. */
  method CompileWrite(c: Compiler, x: Slot, i: IntExpr, v: IntExpr)
    requires c.Valid() && NoSelf(c.moves)
    modifies c
    ensures Done(c, old(c.ev), old(c.ok), [Use(x)] + IntEvents(i) + IntEvents(v)) && c.loops == old(c.loops)
  {
    hide Done, Tables, MovesOk, FieldMovesOk, IntEvents;
    ghost var ev0, ok0 := c.ev, c.ok;
    Occurs(c, x);
    DoneTells(c, ev0, ok0, [Use(x)]);
    ghost var ev1, ok1 := c.ev, c.ok;
    Reads(c, i);
    DoneThen(c, ev0, ok0, [Use(x)], ev1, ok1, IntEvents(i));
    DoneTells(c, ev0, ok0, [Use(x)] + IntEvents(i));
    ghost var ev2, ok2 := c.ev, c.ok;
    Reads(c, v);
    DoneThen(c, ev0, ok0, [Use(x)] + IntEvents(i), ev2, ok2, IntEvents(v));
  }

  /** `w = x.f` of a nested write, and the write back of `w` that ends it. */
  method CompileNested(c: Compiler, ints: seq<bool>, x: Slot, f: nat, w: Slot, i: IntExpr, v: IntExpr)
    requires c.Valid() && NoSelf(c.moves) && !IsInt(ints, w)
    modifies c
    ensures Done(c, old(c.ev), old(c.ok), StmtEvents(ints, NestedSet(x, f, w, i, v))) && c.loops == old(c.loops)
  {
    ghost var head := [Use(x)] + [Path(x, f)] + [Decl(w)];
    ghost var mid := [Use(w)] + IntEvents(i) + IntEvents(v);
    assert StmtEvents(ints, NestedSet(x, f, w, i, v)) == head + mid + [Use(x)] + [MoveUse(w)];
    hide Done, Tables, MovesOk, FieldMovesOk, StmtEvents;
    ghost var ev0, ok0 := c.ev, c.ok;
    Occurs(c, x);
    DoneTells(c, ev0, ok0, [Use(x)]);
    ghost var ev1, ok1 := c.ev, c.ok;
    ReadsField(c, x, f);
    DoneThen(c, ev0, ok0, [Use(x)], ev1, ok1, [Path(x, f)]);
    DoneTells(c, ev0, ok0, [Use(x)] + [Path(x, f)]);
    ghost var ev2, ok2 := c.ev, c.ok;
    Declares(c, w);
    DoneThen(c, ev0, ok0, [Use(x)] + [Path(x, f)], ev2, ok2, [Decl(w)]);
    DoneTells(c, ev0, ok0, head);
    ghost var ev3, ok3 := c.ev, c.ok;
    CompileWrite(c, w, i, v);
    DoneThen(c, ev0, ok0, head, ev3, ok3, mid);
    DoneTells(c, ev0, ok0, head + mid);
    ghost var ev4, ok4 := c.ev, c.ok;
    Occurs(c, x);
    DoneThen(c, ev0, ok0, head + mid, ev4, ok4, [Use(x)]);
    DoneTells(c, ev0, ok0, head + mid + [Use(x)]);
    ghost var ev5, ok5 := c.ev, c.ok;
    PassesOn(c, ints, ArgLocal(w));
    LocalArg(ints, w);
    DoneThen(c, ev0, ok0, head + mid + [Use(x)], ev5, ok5, [MoveUse(w)]);
  }

  /** A statement with no block of its own. */
  method CompileSimple(c: Compiler, ints: seq<bool>, s: Stmt)
    requires c.Valid() && NoSelf(c.moves) && !s.Seq? && !s.If? && !s.Loop? && NestedTemps(ints, s)
    modifies c
    ensures Done(c, old(c.ev), old(c.ok), StmtEvents(ints, s)) && c.loops == old(c.loops)
  {
    hide Done, Tables, MovesOk, FieldMovesOk, IntEvents, RhsEvents, StoredEvents;
    ghost var ev0, ok0 := c.ev, c.ok;
    match s {
      case LetInt(x, e) =>
        Reads(c, e);
        DoneTells(c, ev0, ok0, IntEvents(e));
        ghost var ev1, ok1 := c.ev, c.ok;
        Declares(c, x);
        DoneThen(c, ev0, ok0, IntEvents(e), ev1, ok1, [Decl(x)]);
      case SetInt(x, e) =>
        Occurs(c, x);
        DoneTells(c, ev0, ok0, [Use(x)]);
        ghost var ev1, ok1 := c.ev, c.ok;
        Reads(c, e);
        DoneThen(c, ev0, ok0, [Use(x)], ev1, ok1, IntEvents(e));
      case Let(x, r) =>
        CompileRhs(c, ints, r, -1);
        DoneTells(c, ev0, ok0, RhsEvents(ints, r, -1));
        ghost var ev1, ok1 := c.ev, c.ok;
        Declares(c, x);
        DoneThen(c, ev0, ok0, RhsEvents(ints, r, -1), ev1, ok1, [Decl(x)]);
      case Set(x, r) =>
        Occurs(c, x);
        DoneTells(c, ev0, ok0, [Use(x)]);
        ghost var ev1, ok1 := c.ev, c.ok;
        CompileRhs(c, ints, r, x);
        DoneThen(c, ev0, ok0, [Use(x)], ev1, ok1, RhsEvents(ints, r, x));
      case IndexSet(x, i, v) => CompileWrite(c, x, i, v);
      case FieldSet(x, _, a) =>
        Occurs(c, x);
        DoneTells(c, ev0, ok0, [Use(x)]);
        ghost var ev1, ok1 := c.ev, c.ok;
        CompileStored(c, ints, a);
        DoneThen(c, ev0, ok0, [Use(x)], ev1, ok1, StoredEvents(ints, a));
      case FieldAppend(x, _, e) =>
        Occurs(c, x);
        DoneTells(c, ev0, ok0, [Use(x)]);
        ghost var ev1, ok1 := c.ev, c.ok;
        Occurs(c, x);
        DoneThen(c, ev0, ok0, [Use(x)], ev1, ok1, [Use(x)]);
        DoneTells(c, ev0, ok0, [Use(x)] + [Use(x)]);
        ghost var ev2, ok2 := c.ev, c.ok;
        Reads(c, e);
        DoneThen(c, ev0, ok0, [Use(x)] + [Use(x)], ev2, ok2, IntEvents(e));
        assert [Use(x)] + [Use(x)] == [Use(x), Use(x)];
      case NestedSet(x, f, w, i, v) => CompileNested(c, ints, x, f, w, i, v);
      case Return(a) => CompileReturn(c, a);
      case _ => NothingDone(c);
    }
  }

  method CompileStored(c: Compiler, ints: seq<bool>, a: Arg)
    requires c.Valid() && NoSelf(c.moves)
    modifies c
    ensures Done(c, old(c.ev), old(c.ok), StoredEvents(ints, a)) && c.loops == old(c.loops)
  {
    if a.ArgLocal? { PassesOn(c, ints, a); } else { Retains(c, a); }
  }

  method CompileReturn(c: Compiler, a: Arg)
    requires c.Valid() && NoSelf(c.moves)
    modifies c
    ensures Done(c, old(c.ev), old(c.ok), ReturnEvents(a)) && c.loops == old(c.loops)
  {
    match a {
      case ArgInt(e) => Reads(c, e);
      case ArgLocal(x) => Occurs(c, x);
      case ArgField(x, f) => PassesOn(c, [], a);
    }
  }

  lemma NothingDone(c: Compiler)
    requires c.Valid() && NoSelf(c.moves)
    ensures Done(c, c.ev, c.ok, [])
  {
  }

  /** The temporary of a nested write holds a list, never an int. */
  predicate NestedTemps(ints: seq<bool>, s: Stmt) {
    match s
    case Seq(s1, s2) => NestedTemps(ints, s1) && NestedTemps(ints, s2)
    case If(_, s1, s2) => NestedTemps(ints, s1) && NestedTemps(ints, s2)
    case Loop(_, body) => NestedTemps(ints, body)
    case NestedSet(_, _, w, _, _) => !IsInt(ints, w)
    case _ => true
  }

  /** Statements in textual order; a loop records the positions its condition and body span. */
  method CompileStmt(c: Compiler, ints: seq<bool>, s: Stmt)
    requires c.Valid() && NoSelf(c.moves) && LoopsSeen(c.loops, c.ev) && NestedTemps(ints, s)
    modifies c
    ensures Done(c, old(c.ev), old(c.ok), StmtEvents(ints, s)) && LoopsSeen(c.loops, c.ev)
    ensures Ranges(c.loops) == Ranges(old(c.loops)) + Loops(ints, s, |old(c.ev)|)
    decreases s, 1
  {
    hide Done, Tables, MovesOk, FieldMovesOk, CondEvents, NoSelf;
    ghost var ev0, ok0 := c.ev, c.ok;
    match s {
      case Seq(s1, s2) =>
        CompileStmt(c, ints, s1);
        DoneTells(c, ev0, ok0, StmtEvents(ints, s1));
        ghost var ev1, ok1 := c.ev, c.ok;
        CompileStmt(c, ints, s2);
        DoneThen(c, ev0, ok0, StmtEvents(ints, s1), ev1, ok1, StmtEvents(ints, s2));
      case If(cond, s1, s2) => CompileIf(c, ints, s, cond, s1, s2);
      case Loop(cond, body) => CompileLoop(c, ints, s, cond, body);
      case _ =>
        CompileSimple(c, ints, s);
        DoneTells(c, ev0, ok0, StmtEvents(ints, s));
        LoopsSeenMore(c.loops, ev0, c.ev);
    }
  }

  method CompileIf(c: Compiler, ints: seq<bool>, s: Stmt, cond: Cond, s1: Stmt, s2: Stmt)
    requires s == If(cond, s1, s2)
    requires c.Valid() && NoSelf(c.moves) && LoopsSeen(c.loops, c.ev) && NestedTemps(ints, s)
    modifies c
    ensures Done(c, old(c.ev), old(c.ok), StmtEvents(ints, s)) && LoopsSeen(c.loops, c.ev)
    ensures Ranges(c.loops) == Ranges(old(c.loops)) + Loops(ints, s, |old(c.ev)|)
    decreases s, 0
  {
    hide Done, Tables, MovesOk, FieldMovesOk, CondEvents, NoSelf, Ranges;
    ghost var ev0, ok0 := c.ev, c.ok;
    ghost var es1, es2 := StmtEvents(ints, s1), StmtEvents(ints, s2);
    CompileCond(c, cond);
    DoneTells(c, ev0, ok0, CondEvents(cond));
    ghost var ev1, ok1 := c.ev, c.ok;
    LoopsSeenMore(c.loops, ev0, ev1);
    CompileStmt(c, ints, s1);
    DoneThen(c, ev0, ok0, CondEvents(cond), ev1, ok1, es1);
    DoneTells(c, ev0, ok0, CondEvents(cond) + es1);
    ghost var ev2, ok2 := c.ev, c.ok;
    CompileStmt(c, ints, s2);
    DoneThen(c, ev0, ok0, CondEvents(cond) + es1, ev2, ok2, es2);
  }

  method CompileLoop(c: Compiler, ints: seq<bool>, s: Stmt, cond: Cond, body: Stmt)
    requires s == Loop(cond, body)
    requires c.Valid() && NoSelf(c.moves) && LoopsSeen(c.loops, c.ev) && NestedTemps(ints, s)
    modifies c
    ensures Done(c, old(c.ev), old(c.ok), StmtEvents(ints, s)) && LoopsSeen(c.loops, c.ev)
    ensures Ranges(c.loops) == Ranges(old(c.loops)) + Loops(ints, s, |old(c.ev)|)
    decreases s, 0
  {
    hide Done, Tables, MovesOk, FieldMovesOk, CondEvents, NoSelf, Ranges;
    ghost var ev0, ok0 := c.ev, c.ok;
    ghost var es := StmtEvents(ints, body);
    var start := c.pos;
    ValidPos(c);
    CompileCond(c, cond);
    DoneTells(c, ev0, ok0, CondEvents(cond));
    ghost var ev1, ok1 := c.ev, c.ok;
    LoopsSeenMore(c.loops, ev0, ev1);
    CompileStmt(c, ints, body);
    DoneThen(c, ev0, ok0, CondEvents(cond), ev1, ok1, es);
    DoneTells(c, ev0, ok0, CondEvents(cond) + es);
    ValidPos(c);
    ghost var was := c.loops;
    AddLoop(c, start, ev0, ok0, CondEvents(cond) + es);
    RangesMore(was, (start, c.pos));
  }

  method AddLoop(c: Compiler, start: nat, ghost ev0: Events, ghost ok0: map<nat, bool>, ghost es: Events)
    requires Done(c, ev0, ok0, es) && LoopsSeen(c.loops, c.ev) && start <= |c.ev|
    modifies c`loops
    ensures Done(c, ev0, ok0, es) && LoopsSeen(c.loops, c.ev) && c.loops == old(c.loops) + [(start, c.pos)]
  {
    c.loops := c.loops + [(start, c.pos)];
  }

  lemma ValidPos(c: Compiler)
    requires c.Valid()
    ensures c.pos == |c.ev|
  {
  }

  lemma LoopsSeenMore(loops: seq<(nat, nat)>, ev0: Events, ev1: Events)
    requires LoopsSeen(loops, ev0) && |ev0| <= |ev1|
    ensures LoopsSeen(loops, ev1)
  {
  }

  lemma RangesMore(loops: seq<(nat, nat)>, l: (nat, nat))
    ensures Ranges(loops + [l]) == Ranges(loops) + {l}
  {
  }

  // ── a whole body ──

  /** The verdict the compiled code reads at every candidate is the analysis's. */
  method CompileProc(pr: Proc) returns (c: Compiler)
    requires NestedTemps(pr.ints, pr.body)
    ensures fresh(c) && c.ev == PlainAll(ProcEvents(pr))
    ensures forall q :: 0 <= q < |ProcEvents(pr)| && Candidate(ProcEvents(pr)[q]) ==>
      q + 1 in c.ok && (c.ok[q + 1] <==> Moves(pr, q))
  {
    hide Done, StmtEvents, Loops, NestedTemps, PlainAll, Tables, MovesOk, FieldMovesOk, Decided, KeepsSelf, Settles;
    c := new Compiler();
    CompileParams(c, pr.nparams);
    ghost var params := Params(pr.nparams);
    DoneTells(c, [], map[], params);
    ghost var ev1, ok1 := c.ev, c.ok;
    CompileStmt(c, pr.ints, pr.body);
    DoneThen(c, [], map[], params, ev1, ok1, StmtEvents(pr.ints, pr.body));
    assert ProcEvents(pr) == params + StmtEvents(pr.ints, pr.body);
    DoneTells(c, [], map[], ProcEvents(pr));
    assert Ranges(c.loops) == ProcLoops(pr);
    hide ProcEvents, ProcLoops;
    ghost var before := c.ok;
    assert c.ev == PlainAll(ProcEvents(pr));
    c.DecideMoves();
    AllDecided(pr, before, c.ok);
  }

  function Params(n: nat): (es: Events)
    ensures |es| == n
  {
    seq(n, i requires 0 <= i => Decl(i))
  }

  method CompileParams(c: Compiler, n: nat)
    requires c.Valid() && NoSelf(c.moves) && c.ev == [] && c.loops == []
    modifies c
    ensures Done(c, [], old(c.ok), Params(n)) && c.loops == []
  {
    hide Done, PlainAll, Tables, MovesOk, FieldMovesOk;
    ghost var ok0 := c.ok;
    var i := 0;
    NothingDone(c);
    while i < n
      invariant 0 <= i <= n && c.loops == [] && Done(c, [], ok0, Params(i))
    {
      ghost var ev1, ok1 := c.ev, c.ok;
      DoneTells(c, [], ok0, Params(i));
      Declares(c, i);
      DoneThen(c, [], ok0, Params(i), ev1, ok1, [Decl(i)]);
      assert Params(i) + [Decl(i)] == Params(i + 1);
      i := i + 1;
    }
  }

  predicate Candidate(e: Event) {
    e.MoveUse? || e.SelfUse? || e.FieldMove?
  }

  lemma AllDecided(pr: Proc, before: map<nat, bool>, ok: map<nat, bool>)
    requires Settles(before, 0, ProcEvents(pr)) && KeepsSelf(before, ok, PlainAll(ProcEvents(pr)))
    requires var ev := PlainAll(ProcEvents(pr)); forall q :: 0 <= q < |ev| && (ev[q].MoveUse? || ev[q].FieldMove?) ==>
      Decided(ok, ev, ProcLoops(pr), q + 1)
    ensures forall q :: 0 <= q < |ProcEvents(pr)| && Candidate(ProcEvents(pr)[q]) ==>
      q + 1 in ok && (ok[q + 1] <==> Moves(pr, q))
  {
    hide ProcEvents, ProcLoops;
    var es, ev := ProcEvents(pr), PlainAll(ProcEvents(pr));
    forall q | 0 <= q < |es| && Candidate(es[q]) ensures q + 1 in ok && (ok[q + 1] <==> Moves(pr, q)) {
      assert ev[q] == Unsettled(es[q]);
      if es[q].SelfUse? {
        assert q + 1 in before && before[q + 1] == es[q].last;
      } else {
        PlainDecides(es, ProcLoops(pr), q);
        assert Decided(ok, ev, ProcLoops(pr), q + 1);
      }
    }
  }

  lemma PlainDecides(es: Events, loops: set<(nat, nat)>, q: nat)
    requires q < |es| && (es[q].MoveUse? || es[q].FieldMove?)
    ensures Decide(PlainAll(es), loops, q) <==> Decide(es, loops, q)
  {
    var ev := PlainAll(es);
    assert forall k :: 0 <= k < |es| ==> ev[k] == Unsettled(es[k]);
    var x := es[q].x;
    assert NoLater(ev, x, q + 1) <==> NoLater(es, x, q + 1);
    assert NoWhole(ev, x, q) <==> NoWhole(es, x, q);
    assert es[q].FieldMove? ==> (NoPath(ev, x, es[q].f, q + 1) <==> NoPath(es, x, es[q].f, q + 1));
    forall l | l in loops ensures DeclaredIn(ev, x, l.0, |ev|) <==> DeclaredIn(es, x, l.0, |es|) {
      if DeclaredIn(es, x, l.0, |es|) {
        var d :| l.0 <= d < |es| && es[d] == Decl(x);
        assert ev[d] == Decl(x);
      }
    }
  }
}
