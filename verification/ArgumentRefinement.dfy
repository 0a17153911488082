/** Retained reads give the value the language says, and the slots stay fit for what follows. */
module ArgumentRefinement {
  import opened ProcSyntax
  import V = ValueMachine
  import opened MoveAnalysis
  import opened OwnershipMachine
  import opened Ownership
  import opened OwnershipUpdates
  import opened Simulation
  import opened Arguments

  /** K are the starts of loops of pr that span [lo, hi): after it, control may return there. */
  ghost predicate InLoops(pr: Proc, K: set<nat>, lo: nat, hi: nat) {
    forall r <- K :: r <= lo && exists l: nat :: (r, l) in ProcLoops(pr) && hi <= l
  }

  predicate MayMove(e: Event) {
    e.MoveUse? || e.FieldMove?
  }

  /** What is moved at q is not needed when an enclosing loop starts over. */
  lemma MovedNotLive(pr: Proc, K: set<nat>, lo: nat, hi: nat, q: nat, r: nat)
    requires WellDeclared(ProcEvents(pr)) && InLoops(pr, K, lo, hi) && lo <= q < hi && r in K
    requires Moves(pr, q) && MayMove(ProcEvents(pr)[q])
    ensures !LiveAt(ProcEvents(pr), ProcEvents(pr)[q].x, r)
  {
    var ev := ProcEvents(pr);
    var x := ev[q].x;
    var l: nat :| (r, l) in ProcLoops(pr) && hi <= l;
    assert (r, l).0 <= q < (r, l).1;
    assert DeclaredIn(ev, x, r, |ev|);
  }

  /** One slot changes and the rest agree; positions move from q past a read. */
  lemma SimUpdate(h: Heap, fr: Frame, env: V.Env, ev: Events, K: set<nat>, dead: set<Slot>, q: nat, h': Heap,
          fr': Frame, env': V.Env, x: Slot, q': nat)
    requires SimAll(h, fr, env, ev, {q} + K, dead) && q <= q' && NoDecl(ev, q, q')
    requires HeapOk(h) && |fr'.slots| == |fr.slots| && |env'| == |env|
    requires forall y: Slot :: y != x ==> Get(fr', y) == Get(fr, y) && V.Get(env', y) == V.Get(env, y)
    requires forall y: Slot :: y != x ==> ValOk(h, Get(fr, y)) && Agree(h, h', Get(fr, y))
    requires x !in dead ==> Fit(h', Get(fr', x), V.Get(env', x), ev, x, {q'} + K)
    ensures SimAll(h', fr', env', ev, {q'} + K, dead)
  {
    forall y: Slot | y !in dead
      ensures Fit(h', Get(fr', y), V.Get(env', y), ev, y, {q'} + K)
    {
      if y != x {
        assert Fit(h, Get(fr, y), V.Get(env, y), ev, y, {q} + K);
        assert Good(h, Get(fr, y), V.Get(env, y), ev, y, q);
        GoodLater(h, Get(fr, y), V.Get(env, y), ev, y, q, q');
        FitAgree(h, h', Get(fr, y), V.Get(env, y), ev, y, {q'} + K);
      }
    }
  }

  lemma AgreeSelf(h: Heap, v: HVal)
    requires HeapOk(h) && ValOk(h, v)
    ensures Agree(h, h, v)
  {
    AgreeExtend(h, [], v);
    assert h + [] == h;
  }

  function DeadAfter(pr: Proc, q: nat, dead: set<Slot>): set<Slot> {
    var ev := ProcEvents(pr);
    if q < |ev| && ev[q].SelfUse? && Moves(pr, q) then dead + {ev[q].x} else dead
  }

  /** A local moved at q is not read again: not later in the text, nor when a loop starts over. */
  lemma LocalMoveDead(pr: Proc, K: set<nat>, lo: nat, hi: nat, q: nat, r: nat)
    requires WellDeclared(ProcEvents(pr)) && InLoops(pr, K, lo, hi) && lo <= q < hi <= |ProcEvents(pr)|
    requires Whole(ProcEvents(pr)[q]) && !ProcEvents(pr)[q].SelfUse? && Moves(pr, q)
    requires r in {q + 1} + K
    ensures !LiveAt(ProcEvents(pr), ProcEvents(pr)[q].x, r)
  {
    if r in K { MovedNotLive(pr, K, lo, hi, q, r); }
  }

  lemma NotLiveFit(h: Heap, v: HVal, pv: V.Val, ev: Events, x: Slot, R: set<nat>)
    requires forall r <- R :: !LiveAt(ev, x, r)
    ensures Fit(h, v, pv, ev, x, R)
  {
  }

  lemma ReadLocalSim(h: Heap, fr: Frame, env: V.Env, pr: Proc, K: set<nat>, dead: set<Slot>, lo: nat, hi: nat, q: nat,
          keep: bool)
    requires WellDeclared(ProcEvents(pr)) && InLoops(pr, K, lo, hi) && lo <= q < hi <= |ProcEvents(pr)|
    requires Whole(ProcEvents(pr)[q]) && ProcEvents(pr)[q].x !in dead
    requires SimAll(h, fr, env, ProcEvents(pr), {q} + K, dead)
    requires HeapOk(h) && |fr.slots| == |fr.own| && forall y: Slot :: ValOk(h, Get(fr, y))
    ensures var x := ProcEvents(pr)[q].x;
            var r := ReadLocal(h, fr, x, Moves(pr, q), keep);
            && FullSim(h, r.t.v, V.Get(env, x))
            && SimAll(h, r.fr, env, ProcEvents(pr), {q + 1} + K, DeadAfter(pr, q, dead))
  {
    hide ProcEvents, Decide, InLoops, Fit, WellDeclared;
    var ev := ProcEvents(pr);
    var x := ev[q].x;
    var fr' := ReadLocal(h, fr, x, Moves(pr, q), keep).fr;
    var dead' := DeadAfter(pr, q, dead);
    Readable(h, fr, env, ev, {q} + K, dead, q, q);
    forall y: Slot | y != x
      ensures Get(fr', y) == Get(fr, y) && Agree(h, h, Get(fr, y))
    {
      AgreeSelf(h, Get(fr, y));
    }
    assert SimAll(h, fr, env, ev, {q} + K, dead');
    if x !in dead' {
      if Moves(pr, q) {
        forall r | r in {q + 1} + K ensures !LiveAt(ev, x, r) { LocalMoveDead(pr, K, lo, hi, q, r); }
        NotLiveFit(h, Get(fr', x), V.Get(env, x), ev, x, {q + 1} + K);
      } else {
        FullFit(h, Get(fr, x), V.Get(env, x), ev, x, {q + 1} + K);
      }
    }
    SimUpdate(h, fr, env, ev, K, dead', q, h, fr', env, x, q + 1);
  }

  /** Giving up field f leaves every other field of the value in place. */
  lemma GiveUpSim(h: Heap, a: Addr, f: nat, move: bool, v: HVal, pv: V.Val)
    requires HeapOk(h) && ValOk(h, v) && a < |h| && h[a].StructCell? && f < |h[a].vals|
    requires Sim(h, v, pv)
    ensures CellOk(h, h[a])
    ensures var h' := h[a := GiveUp(h[a], f, move)];
            && Sim(h', v, pv)
            && (forall k: nat :: MovedIn(h', v, k) ==> MovedIn(h, v, k) || (move && v == HRef(a) && k == f))
  {
    assert CellOk(h, h[a]);
    var h' := h[a := GiveUp(h[a], f, move)];
    if IsStruct(h, v) {
      assert CellOk(h, h[v.a]);
      forall k: nat | k < |pv.fs| && !MovedAt(h'[v.a], k)
        ensures SimField(h', h'[v.a].vals[k], pv.fs[k])
      {
        assert !MovedAt(h[v.a], k);
        assert FieldOk(h, h[v.a].vals[k]);
      }
    }
  }

  /** Slots other than x do not hold x's struct, so they stay fit when its field is given up. */
  lemma GivenUpSim(h: Heap, fr: Frame, env: V.Env, ev: Events, K: set<nat>, dead: set<Slot>, q: nat, o: Outside,
          x: Slot, f: nat, move: bool)
    requires SimAll(h, fr, env, ev, {q} + K, dead) && x !in dead && NoDecl(ev, q, q + 1)
    requires Disciplined(h, fr, o) && IsStruct(h, Get(fr, x)) && f < |h[Get(fr, x).a].vals| && Owned(fr, x)
    requires Fit(h, Get(fr, x), V.Get(env, x), ev, x, {q + 1} + K)
    requires Sim(h, Get(fr, x), V.Get(env, x))
    requires move ==> NoWhole(ev, x, q + 1) && NoPath(ev, x, f, q + 1) && forall r <- K :: !LiveAt(ev, x, r)
    ensures CellOk(h, h[Get(fr, x).a])
    ensures var a := Get(fr, x).a;
            SimAll(h[a := GiveUp(h[a], f, move)], fr, env, ev, {q + 1} + K, dead)
  {
    var v, pv := Get(fr, x), V.Get(env, x);
    var a := v.a;
    assert CellOk(h, h[a]);
    var h' := h[a := GiveUp(h[a], f, move)];
    GiveUpSim(h, a, f, move, v, pv);
    assert Exclusive(h, fr, o.kept, x) && Owns(h, v, a);
    forall y: Slot | y != x
      ensures Agree(h, h', Get(fr, y))
    {
      AgreeWrite(h, a, GiveUp(h[a], f, move), Get(fr, y));
    }
    forall r | r in {q + 1} + K
      ensures Good(h', v, pv, ev, x, r)
    {
      assert Good(h, v, pv, ev, x, r);
    }
    SimUpdate(h, fr, env, ev, K, dead, q, h', fr, env, x, q + 1);
  }

  lemma TakeFieldSim(h: Heap, fr: Frame, env: V.Env, pr: Proc, K: set<nat>, dead: set<Slot>, lo: nat, hi: nat, q: nat,
          o: Outside, x: Slot, f: nat)
    requires WellDeclared(ProcEvents(pr)) && InLoops(pr, K, lo, hi) && lo <= q < hi <= |ProcEvents(pr)|
    requires ProcEvents(pr)[q] == FieldMove(x, f) || ProcEvents(pr)[q] == Path(x, f)
    requires x !in dead
    requires SimAll(h, fr, env, ProcEvents(pr), {q} + K, dead)
    requires Disciplined(h, fr, o)
    ensures !MovedIn(h, Get(fr, x), f)
    ensures var r := TakeField(h, fr, x, f, Moves(pr, q));
            var pv := V.Field(V.Get(env, x), f);
            && (r.ArgErr? <==> pv.Err?)
            && (r.ArgErr? ==> r.fault == pv.fault)
            && (r.ArgOk? ==> FullSim(r.h, r.t.v, pv.value) && SimAll(r.h, r.fr, env, ProcEvents(pr), {q + 1} + K, dead))
  {
    hide ProcEvents, Decide, SimAll, InLoops;
    var ev := ProcEvents(pr);
    Readable(h, fr, env, ev, {q} + K, dead, q, q);
    assert ReadsPath(ev[q], f);
    TakenValue(h, fr, x, f, Moves(pr, q), V.Get(env, x));
    SimLater(h, fr, env, ev, q, q + 1, K, dead);
    if IsStruct(h, Get(fr, x)) && f < |h[Get(fr, x).a].vals| && Owned(fr, x) && FieldOwned(h[Get(fr, x).a], f) {
      FieldMoveDead(pr, K, lo, hi, q, x, f);
      FitNow(h, fr, env, ev, {q + 1} + K, dead, x);
      GivenUpSim(h, fr, env, ev, K, dead, q, o, x, f, Moves(pr, q));
    }
  }

  lemma FitNow(h: Heap, fr: Frame, env: V.Env, ev: Events, R: set<nat>, dead: set<Slot>, x: Slot)
    requires SimAll(h, fr, env, ev, R, dead) && x !in dead
    ensures Fit(h, Get(fr, x), V.Get(env, x), ev, x, R)
  {
  }

  /** A field moved at q is not read again: not later in the text, nor when a loop starts over. */
  lemma FieldMoveDead(pr: Proc, K: set<nat>, lo: nat, hi: nat, q: nat, x: Slot, f: nat)
    requires WellDeclared(ProcEvents(pr)) && InLoops(pr, K, lo, hi) && lo <= q < hi <= |ProcEvents(pr)|
    requires ProcEvents(pr)[q] == FieldMove(x, f) || ProcEvents(pr)[q] == Path(x, f)
    ensures Moves(pr, q) ==>
              && NoWhole(ProcEvents(pr), x, q + 1) && NoPath(ProcEvents(pr), x, f, q + 1)
              && forall r <- K :: !LiveAt(ProcEvents(pr), x, r)
  {
    forall r | r in K
      ensures Moves(pr, q) ==> !LiveAt(ProcEvents(pr), x, r)
    {
      if Moves(pr, q) { MovedNotLive(pr, K, lo, hi, q, r); }
    }
  }

  /** What a field read yields, whether the field is given up or shared. */
  lemma TakenValue(h: Heap, fr: Frame, x: Slot, f: nat, move: bool, pv: V.Val)
    requires HeapOk(h) && Sim(h, Get(fr, x), pv) && !MovedIn(h, Get(fr, x), f)
    ensures var r := TakeField(h, fr, x, f, move);
            && (r.ArgErr? <==> V.Field(pv, f).Err?)
            && (r.ArgErr? ==> r.fault == V.Field(pv, f).fault)
            && (r.ArgOk? ==> r.fr == fr && FullSim(r.h, r.t.v, V.Field(pv, f).value))
  {
    var v := Get(fr, x);
    FieldSame(h, v, pv, f);
    if IsStruct(h, v) {
      assert CellOk(h, h[v.a]);
      if f < |h[v.a].vals| { assert FieldOk(h, h[v.a].vals[f]); }
    }
  }

  // ── a whole argument list ──

  function ArgPos(args: seq<Arg>, q: nat, k: nat): nat
    requires k <= |args|
  {
    if k == 0 then q else ArgPos(args, q, k - 1) + ArgLen(args[k - 1])
  }

  predicate Names(a: Arg, x: Slot) {
    a == ArgLocal(x) || (a.ArgField? && a.x == x)
  }

  /** No argument moves a local, or a field of one, that an earlier argument lent. */
  ghost predicate BorrowSafe(pr: Proc, args: seq<Arg>, q: nat, borrow: nat -> bool) {
    forall k: nat, u: nat, x: Slot ::
      k < u < |args| && LentTo(args, borrow, k, x) && Names(args[u], x) ==> !Moves(pr, ArgPos(args, q, u))
  }

  ghost predicate FullSims(h: Heap, ts: seq<Temp>, vs: seq<V.Val>) {
    |ts| == |vs| && forall k: nat :: k < |ts| ==> FullSim(h, ts[k].v, vs[k])
  }

  lemma FullSimsAdd(h: Heap, ts: seq<Temp>, vs: seq<V.Val>, t: Temp, pv: V.Val)
    requires FullSims(h, ts, vs) && FullSim(h, t.v, pv)
    ensures FullSims(h, ts + [t], vs + [pv])
  {
  }

  /** The waiting values still stand for their values after a field is given up. */
  lemma GiveUpTemps(h: Heap, fr: Frame, o: Outside, ts: seq<Temp>, vs: seq<V.Val>, args: seq<Arg>, borrow: nat -> bool,
          x: Slot, f: nat, move: bool)
    requires Waiting(h, fr, o, ts, vs, args, borrow)
    requires TakeField(h, fr, x, f, move).ArgOk?
    requires move ==> forall k :: 0 <= k < |ts| ==> !LentTo(args, borrow, k, x)
    ensures FullSims(TakeField(h, fr, x, f, move).h, ts, vs)
  {
    var v := Get(fr, x);
    var a := v.a;
    if f < |h[a].vals| && Owned(fr, x) && FieldOwned(h[a], f) {
      var h' := h[a := GiveUp(h[a], f, move)];
      assert Exclusive(h, fr, o.kept, x) && Owns(h, v, a);
      forall k: nat | k < |ts|
        ensures FullSim(h', ts[k].v, vs[k])
      {
        GiveUpSim(h, a, f, move, ts[k].v, vs[k]);
        assert move ==> !Reaches(h, ts[k].v, a);
        forall g: nat ensures !MovedIn(h', ts[k].v, g) { assert !MovedIn(h, ts[k].v, g); }
      }
    }
  }

  /** The frame and the values waiting beside it. */
  ghost predicate Waiting(h: Heap, fr: Frame, o: Outside, ts: seq<Temp>, vs: seq<V.Val>, args: seq<Arg>,
          borrow: nat -> bool) {
    Disciplined(h, fr, o) && TempsOk(h, fr, o, ts, args, borrow) && FullSims(h, ts, vs)
  }

  function ArgDead(pr: Proc, a: Arg, q: nat, dead: set<Slot>): set<Slot> {
    if a.ArgLocal? && !IsInt(pr.ints, a.x) then DeadAfter(pr, q, dead) else dead
  }

  /** An argument's outcome on the engine against its value. */
  ghost predicate ArgMatches(h: Heap, r: ArgOut, pv: Result<V.Val>, o: Outside, ts: seq<Temp>, vs: seq<V.Val>,
          args: seq<Arg>, borrow: nat -> bool) {
    match r
    case ArgErr(f) => pv == Err(f)
    case ArgOk(h', fr', t) =>
      pv.Ok? && Waiting(h', fr', o, ts + [t], vs + [pv.value], args, borrow) && Keeps(h, h', o.kept)
  }

  /** Where an argument is evaluated: args[k] at position q of pr, inside the loops starting at K. */
  ghost predicate ArgSite(pr: Proc, o: Outside, args: seq<Arg>, borrow: nat -> bool, k: nat, K: set<nat>, q: nat) {
    && WellDeclared(ProcEvents(pr)) && k < |args|
    && q + ArgLen(args[k]) <= |ProcEvents(pr)| && InLoops(pr, K, q, q + ArgLen(args[k]))
    && ArgEscapes(pr.ints, args[k]) <= o.escaping
    && (Moves(pr, q) ==> forall j: nat, x: Slot :: j < k && Names(args[k], x) ==> !LentTo(args, borrow, j, x))
  }

  lemma IntArgRefines(h: Heap, fr: Frame, env: V.Env, pr: Proc, o: Outside, args: seq<Arg>, borrow: nat -> bool,
          ts: seq<Temp>, vs: seq<V.Val>, K: set<nat>, dead: set<Slot>, q: nat)
    requires ArgSite(pr, o, args, borrow, |ts|, K, q) && Waiting(h, fr, o, ts, vs, args, borrow)
    requires args[|ts|].ArgInt? && Occurs(ProcEvents(pr), q, IntEvents(args[|ts|].e))
    requires SimAll(h, fr, env, ProcEvents(pr), {q} + K, dead)
    requires Avoids(ProcEvents(pr), q, q + ArgLen(args[|ts|]), dead)
    ensures var r := EvalArg(h, fr, pr.ints, args[|ts|], Moves(pr, q), borrow(|ts|));
            && ArgMatches(h, r, V.EvalArg(env, pr.ints, args[|ts|]), o, ts, vs, args, borrow)
            && (r.ArgOk? ==> SimAll(r.h, r.fr, env, ProcEvents(pr), {q + ArgLen(args[|ts|])} + K, dead))
  {
    hide ProcEvents, Decide, TempsOk, Disciplined, ArgEscapes;
    var ev := ProcEvents(pr);
    var e := args[|ts|].e;
    IntEventsRead(e);
    ReadsNoDecl(ev, q, IntEvents(e));
    EvalIntSame(h, fr, env, ev, {q} + K, dead, q, q, e);
    SimLater(h, fr, env, ev, q, q + |IntEvents(e)|, K, dead);
    var r := EvalArg(h, fr, pr.ints, args[|ts|], Moves(pr, q), borrow(|ts|));
    if r.ArgOk? {
      PlainStep(h, fr, o, ts, args, borrow, r.t);
      FullSimsAdd(h, ts, vs, r.t, V.EvalArg(env, pr.ints, args[|ts|]).value);
    }
  }

  lemma LocalArgRefines(h: Heap, fr: Frame, env: V.Env, pr: Proc, o: Outside, args: seq<Arg>, borrow: nat -> bool,
          ts: seq<Temp>, vs: seq<V.Val>, K: set<nat>, dead: set<Slot>, q: nat, x: Slot)
    requires ArgSite(pr, o, args, borrow, |ts|, K, q) && Waiting(h, fr, o, ts, vs, args, borrow)
    requires args[|ts|] == ArgLocal(x)
    requires Whole(ProcEvents(pr)[q]) && ProcEvents(pr)[q].x == x && x !in dead
    requires SimAll(h, fr, env, ProcEvents(pr), {q} + K, dead)
    ensures var r := EvalArg(h, fr, pr.ints, args[|ts|], Moves(pr, q), borrow(|ts|));
            && ArgMatches(h, r, V.EvalArg(env, pr.ints, args[|ts|]), o, ts, vs, args, borrow)
            && (r.ArgOk? ==> SimAll(r.h, r.fr, env, ProcEvents(pr), {q + 1} + K, ArgDead(pr, args[|ts|], q, dead)))
  {
    hide ProcEvents, Decide;
    var ev := ProcEvents(pr);
    if IsInt(pr.ints, x) {
      Readable(h, fr, env, ev, {q} + K, dead, q, q);
      SimLater(h, fr, env, ev, q, q + 1, K, dead);
      var t := Temp(HInt(AsInt(Get(fr, x))), false);
      PlainStep(h, fr, o, ts, args, borrow, t);
      FullSimsAdd(h, ts, vs, t, V.EvalArg(env, pr.ints, args[|ts|]).value);
    } else {
      assert Names(args[|ts|], x);
      ReadLocalStep(h, fr, o, ts, args, borrow, x, Moves(pr, q));
      ReadLocalSim(h, fr, env, pr, K, dead, q, q + 1, q, borrow(|ts|));
      FullSimsAdd(h, ts, vs, ReadLocal(h, fr, x, Moves(pr, q), borrow(|ts|)).t, V.Get(env, x));
    }
  }

  lemma FieldArgRefines(h: Heap, fr: Frame, env: V.Env, pr: Proc, o: Outside, args: seq<Arg>, borrow: nat -> bool,
          ts: seq<Temp>, vs: seq<V.Val>, K: set<nat>, dead: set<Slot>, q: nat, x: Slot, f: nat)
    requires ArgSite(pr, o, args, borrow, |ts|, K, q) && Waiting(h, fr, o, ts, vs, args, borrow)
    requires args[|ts|] == ArgField(x, f)
    requires ProcEvents(pr)[q] == FieldMove(x, f) || ProcEvents(pr)[q] == Path(x, f)
    requires x !in dead && SimAll(h, fr, env, ProcEvents(pr), {q} + K, dead)
    ensures var r := EvalArg(h, fr, pr.ints, args[|ts|], Moves(pr, q), borrow(|ts|));
            && ArgMatches(h, r, V.EvalArg(env, pr.ints, args[|ts|]), o, ts, vs, args, borrow)
            && (r.ArgOk? ==> SimAll(r.h, r.fr, env, ProcEvents(pr), {q + 1} + K, dead))
  {
    hide ProcEvents, Decide, SimAll;
    assert Names(args[|ts|], x);
    TakeFieldSim(h, fr, env, pr, K, dead, q, q + 1, q, o, x, f);
    TakeFieldStep(h, fr, o, ts, args, borrow, x, f, Moves(pr, q));
    var r := TakeField(h, fr, x, f, Moves(pr, q));
    if r.ArgOk? {
      GiveUpTemps(h, fr, o, ts, vs, args, borrow, x, f, Moves(pr, q));
      FullSimsAdd(r.h, ts, vs, r.t, V.Field(V.Get(env, x), f).value);
    }
  }

  /** One argument: both machines give the same value, and the discipline holds with it waiting. */
  lemma ArgRefines(h: Heap, fr: Frame, env: V.Env, pr: Proc, o: Outside, args: seq<Arg>, borrow: nat -> bool,
          ts: seq<Temp>, vs: seq<V.Val>, K: set<nat>, dead: set<Slot>, q: nat, target: int, rest: Events)
    requires ArgSite(pr, o, args, borrow, |ts|, K, q) && Waiting(h, fr, o, ts, vs, args, borrow)
    requires Occurs(ProcEvents(pr), q, ArgEvents(pr.ints, args[|ts|], target, rest))
    requires SimAll(h, fr, env, ProcEvents(pr), {q} + K, dead)
    requires Avoids(ProcEvents(pr), q, q + ArgLen(args[|ts|]), dead)
    ensures var r := EvalArg(h, fr, pr.ints, args[|ts|], Moves(pr, q), borrow(|ts|));
            && ArgMatches(h, r, V.EvalArg(env, pr.ints, args[|ts|]), o, ts, vs, args, borrow)
            && (r.ArgOk? ==> SimAll(r.h, r.fr, env, ProcEvents(pr), {q + ArgLen(args[|ts|])} + K,
                             ArgDead(pr, args[|ts|], q, dead)))
  {
    match args[|ts|] {
      case ArgInt(_) => IntArgRefines(h, fr, env, pr, o, args, borrow, ts, vs, K, dead, q);
      case ArgLocal(x) =>
        OccursAt(ProcEvents(pr), q, ArgEvents(pr.ints, args[|ts|], target, rest), 0);
        LocalArgRefines(h, fr, env, pr, o, args, borrow, ts, vs, K, dead, q, x);
      case ArgField(x, f) =>
        OccursAt(ProcEvents(pr), q, ArgEvents(pr.ints, args[|ts|], target, rest), 0);
        FieldArgRefines(h, fr, env, pr, o, args, borrow, ts, vs, K, dead, q, x, f);
    }
  }

  function TargetSet(target: int): set<Slot> {
    if target < 0 then {} else {target}
  }

  lemma ArgsEscapeAt(ints: seq<bool>, args: seq<Arg>, k: nat)
    requires k < |args|
    ensures ArgEscapes(ints, args[k]) <= ArgsEscape(ints, args)
  {
    if k > 0 {
      ArgsEscapeAt(ints, args[1..], k - 1);
      assert args[1..][k - 1] == args[k];
    }
  }

  /** The outcome of a whole argument list against its values. */
  ghost predicate ArgsMatch(h: Heap, r: ArgsOut, pvs: Result<seq<V.Val>>, o: Outside, vs: seq<V.Val>, args: seq<Arg>,
          borrow: nat -> bool) {
    match r
    case ArgsErr(f) => pvs == Err(f)
    case ArgsOk(h', fr', ts) =>
      pvs.Ok? && |ts| == |args| && Waiting(h', fr', o, ts, vs + pvs.value, args, borrow) && Keeps(h, h', o.kept)
  }

  /** Where args[k..] are evaluated, from position q on; args[0] started at q0. */
  ghost predicate ArgsSite(pr: Proc, o: Outside, args: seq<Arg>, borrow: nat -> bool, k: nat, K: set<nat>, q0: nat,
          q: nat, target: int) {
    && WellDeclared(ProcEvents(pr)) && k <= |args| && q == ArgPos(args, q0, k)
    && Occurs(ProcEvents(pr), q, ArgsEvents(pr.ints, args[k..], target))
    && InLoops(pr, K, q, q + |ArgsEvents(pr.ints, args[k..], target)|)
    && ArgsEscape(pr.ints, args) <= o.escaping && BorrowSafe(pr, args, q0, borrow)
  }

  lemma ArgSiteStep(pr: Proc, o: Outside, args: seq<Arg>, borrow: nat -> bool, k: nat, K: set<nat>, q0: nat, q: nat,
          target: int)
    requires ArgsSite(pr, o, args, borrow, k, K, q0, q, target) && k < |args|
    ensures ArgSite(pr, o, args, borrow, k, K, q)
    ensures ArgsSite(pr, o, args, borrow, k + 1, K, q0, q + ArgLen(args[k]), target)
    ensures var rest := ArgsEvents(pr.ints, args[k + 1..], target);
            && Occurs(ProcEvents(pr), q, ArgEvents(pr.ints, args[k], target, rest))
            && Occurs(ProcEvents(pr), q + ArgLen(args[k]), rest)
            && |ArgsEvents(pr.ints, args[k..], target)| == ArgLen(args[k]) + |rest|
  {
    hide ProcEvents, Decide, LentTo, WellDeclared;
    var tail := args[k..];
    assert tail[0] == args[k] && tail[1..] == args[k + 1..];
    var rest := ArgsEvents(pr.ints, tail[1..], target);
    OccursParts(ProcEvents(pr), q, ArgEvents(pr.ints, args[k], target, rest), rest);
    ArgsEscapeAt(pr.ints, args, k);
    if Moves(pr, q) {
      forall j: nat, x: Slot | j < k && Names(args[k], x)
        ensures !LentTo(args, borrow, j, x)
      {
        assert ArgPos(args, q0, k) == q;
      }
    }
  }

  lemma {:induction false} ArgsRefine(h: Heap, fr: Frame, env: V.Env, pr: Proc, o: Outside, args: seq<Arg>,
          borrow: nat -> bool, ts: seq<Temp>, vs: seq<V.Val>, K: set<nat>, dead: set<Slot>, q0: nat, q: nat,
          target: int)
    requires |ts| <= |args| && ArgsSite(pr, o, args, borrow, |ts|, K, q0, q, target)
    requires Waiting(h, fr, o, ts, vs, args, borrow)
    requires SimAll(h, fr, env, ProcEvents(pr), {q} + K, dead) && dead <= TargetSet(target)
    requires Avoids(ProcEvents(pr), q, q + |ArgsEvents(pr.ints, args[|ts|..], target)|, dead)
    ensures var r := EvalArgs(h, fr, pr, args, q, borrow, ts);
            && ArgsMatch(h, r, V.EvalArgs(env, pr.ints, args[|ts|..]), o, vs, args, borrow)
            && (r.ArgsOk? ==> SimAll(r.h, r.fr, env, ProcEvents(pr),
                                     {q + |ArgsEvents(pr.ints, args[|ts|..], target)|} + K, TargetSet(target)))
    decreases |args| - |ts|
  {
    hide Waiting, SimAll, ArgSite, ArgsSite, Keeps, Avoids, EvalArg, V.EvalArg, ArgEvents, ArgDead, ProcEvents, ArgLen;
    var ev := ProcEvents(pr);
    var tail := args[|ts|..];
    if |ts| == |args| {
      assert tail == [] && vs + [] == vs;
      AllEvaluated(h, fr, env, ev, {q} + K, dead, TargetSet(target), o.kept);
    } else {
      var a := args[|ts|];
      assert tail[0] == a && tail[1..] == args[|ts| + 1..];
      var rest := ArgsEvents(pr.ints, args[|ts| + 1..], target);
      ArgSiteStep(pr, o, args, borrow, |ts|, K, q0, q, target);
      AvoidsPart(ev, q, q + ArgLen(a), q + ArgLen(a) + |rest|, dead);
      ArgRefines(h, fr, env, pr, o, args, borrow, ts, vs, K, dead, q, target, rest);
      var r := EvalArg(h, fr, pr.ints, a, Moves(pr, q), borrow(|ts|));
      if r.ArgOk? {
        var pv := V.EvalArg(env, pr.ints, a).value;
        DeadAvoids(pr, a, target, rest, q, dead);
        ArgsRefine(r.h, r.fr, env, pr, o, args, borrow, ts + [r.t], vs + [pv], K, ArgDead(pr, a, q, dead), q0, q
          + ArgLen(a), target);
        KeepsTrans(h, r.h, EvalArgs(h, fr, pr, args, q, borrow, ts), o.kept);
        ValsJoin(vs, pv, V.EvalArgs(env, pr.ints, tail[1..]));
      }
    }
  }

  lemma AllEvaluated(h: Heap, fr: Frame, env: V.Env, ev: Events, R: set<nat>, dead: set<Slot>, dead': set<Slot>,
          P: set<Addr>)
    requires SimAll(h, fr, env, ev, R, dead) && dead <= dead'
    ensures SimAll(h, fr, env, ev, R, dead') && Keeps(h, h, P)
  {
  }

  lemma AvoidsPart(ev: Events, lo: nat, mid: nat, hi: nat, dead: set<Slot>)
    requires Avoids(ev, lo, hi, dead) && lo <= mid <= hi
    ensures Avoids(ev, lo, mid, dead)
  {
  }

  lemma KeepsTrans(h: Heap, h1: Heap, r: ArgsOut, P: set<Addr>)
    requires Keeps(h, h1, P)
    ensures r.ArgsOk? && Keeps(h1, r.h, P) ==> Keeps(h, r.h, P)
  {
  }

  lemma ValsJoin(vs: seq<V.Val>, pv: V.Val, pvs: Result<seq<V.Val>>)
    ensures pvs.Ok? ==> vs + ([pv] + pvs.value) == (vs + [pv]) + pvs.value
  {
  }

  /** A target moved as its last use is not mentioned by the arguments still to come. */
  lemma DeadAvoids(pr: Proc, a: Arg, target: int, rest: Events, q: nat, dead: set<Slot>)
    requires Occurs(ProcEvents(pr), q, ArgEvents(pr.ints, a, target, rest))
    requires Occurs(ProcEvents(pr), q + ArgLen(a), rest) && dead <= TargetSet(target)
    requires Avoids(ProcEvents(pr), q, q + ArgLen(a) + |rest|, dead)
    ensures ArgDead(pr, a, q, dead) <= TargetSet(target)
    ensures Avoids(ProcEvents(pr), q + ArgLen(a), q + ArgLen(a) + |rest|, ArgDead(pr, a, q, dead))
  {
    var ev := ProcEvents(pr);
    if a.ArgLocal? {
      OccursAt(ev, q, ArgEvents(pr.ints, a, target, rest), 0);
      forall p | q + ArgLen(a) <= p < q + ArgLen(a) + |rest|
        ensures ev[p].x !in ArgDead(pr, a, q, dead)
      {
        OccursAt(ev, q + ArgLen(a), rest, p - q - ArgLen(a));
        assert ev[p] in rest;
      }
    }
  }
}
