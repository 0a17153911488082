/** The compiler's tables for the move analysis, and that the decisions read off them are the
  * analysis's. */
module MoveCompiler {
  import opened ProcSyntax
  import opened MoveAnalysis

  datatype PathRead = PathRead(x: Slot, f: nat, pos: nat)

  /** `moveCand` */
  datatype Cand = Cand(x: Slot, pos: nat, self: bool)

  // ── what the tables hold, as functions of the occurrences so far ──

  /** Occurrences with the self-move verdicts left out: they are settled a statement at a time. */
  function Unsettled(e: Event): Event {
    if e.SelfUse? then SelfUse(e.x, false) else e
  }

  function PlainAll(ev: Events): (r: Events)
    ensures |r| == |ev|
  {
    seq(|ev|, i requires 0 <= i < |ev| => Unsettled(ev[i]))
  }

  function LastPos(ev: Events, x: Slot): nat {
    if ev == [] then 0 else if ev[|ev| - 1].x == x then |ev| else LastPos(ev[..|ev| - 1], x)
  }

  function WholePos(ev: Events, x: Slot): nat {
    if ev == [] then 0
    else if ev[|ev| - 1].x == x && Whole(ev[|ev| - 1]) then |ev|
    else WholePos(ev[..|ev| - 1], x)
  }

  function DeclPos(ev: Events, x: Slot): nat {
    if ev == [] then 0 else if ev[|ev| - 1] == Decl(x) then |ev| else DeclPos(ev[..|ev| - 1], x)
  }

  function PathReads(ev: Events): seq<PathRead> {
    if ev == [] then []
    else
      var e := ev[|ev| - 1];
      PathReads(ev[..|ev| - 1]) + if e.Path? || e.FieldMove? then [PathRead(e.x, e.f, |ev|)] else []
  }

  lemma {:induction false} LastPosTells(ev: Events, x: Slot, p: nat)
    requires p <= |ev|
    ensures LastPos(ev, x) <= |ev| && (LastPos(ev, x) <= p <==> NoLater(ev, x, p))
    decreases |ev|
  {
    if ev != [] {
      var most := ev[..|ev| - 1];
      if p < |ev| {
        LastPosTells(most, x, p);
        assert NoLater(ev, x, p) <==> NoLater(most, x, p) && ev[|ev| - 1].x != x by {
          if NoLater(most, x, p) { assert forall q :: p <= q < |most| ==> most[q] == ev[q]; }
          if NoLater(ev, x, p) { assert forall q :: p <= q < |most| ==> most[q] == ev[q]; }
        }
      } else {
        LastPosTells(most, x, |most|);
      }
    }
  }

  lemma {:induction false} WholePosTells(ev: Events, x: Slot, p: nat)
    requires p <= |ev|
    ensures WholePos(ev, x) <= |ev| && (WholePos(ev, x) <= p <==> NoWhole(ev, x, p))
    decreases |ev|
  {
    if ev != [] {
      var most := ev[..|ev| - 1];
      if p < |ev| {
        WholePosTells(most, x, p);
        assert forall q :: p <= q < |most| ==> most[q] == ev[q];
      } else {
        WholePosTells(most, x, |most|);
      }
    }
  }

  lemma {:induction false} DeclPosTells(ev: Events, x: Slot, lo: nat)
    requires lo <= |ev|
    ensures DeclPos(ev, x) <= |ev| && (DeclPos(ev, x) > lo <==> DeclaredIn(ev, x, lo, |ev|))
    decreases |ev|
  {
    if ev != [] {
      var most := ev[..|ev| - 1];
      if lo < |ev| {
        DeclPosTells(most, x, lo);
        if DeclaredIn(most, x, lo, |most|) {
          var d :| lo <= d < |most| && most[d] == Decl(x);
          assert ev[d] == Decl(x);
        }
        if DeclaredIn(ev, x, lo, |ev|) && ev[|ev| - 1] != Decl(x) {
          var d :| lo <= d < |ev| && ev[d] == Decl(x);
          assert most[d] == Decl(x);
        }
      } else {
        DeclPosTells(most, x, |most|);
      }
    }
  }

  lemma {:induction false} PathReadsTell(ev: Events, r: PathRead)
    ensures r in PathReads(ev) <==> 1 <= r.pos <= |ev| && ev[r.pos - 1].x == r.x && ReadsPath(ev[r.pos - 1], r.f)
  {
    if ev != [] {
      PathReadsTell(ev[..|ev| - 1], r);
    }
  }

  // ── candidates ──

  predicate Genuine(ev: Events, m: Cand) {
    1 <= m.pos <= |ev| && ev[m.pos - 1] == if m.self then SelfUse(m.x, false) else MoveUse(m.x)
  }

  /** The candidates come in textual order, and every undecided occurrence is among them. */
  ghost predicate MovesOk(ev: Events, moves: seq<Cand>) {
    && (forall i, j :: 0 <= i < j < |moves| ==> moves[i].pos < moves[j].pos)
    && (forall i :: 0 <= i < |moves| ==> Genuine(ev, moves[i]))
    && (forall q :: 0 <= q < |ev| && ev[q].MoveUse? ==> Cand(ev[q].x, q + 1, false) in moves)
  }

  ghost predicate FieldMovesOk(ev: Events, moves: seq<PathRead>) {
    && (forall i :: 0 <= i < |moves| ==>
      1 <= moves[i].pos <= |ev| && ev[moves[i].pos - 1] == FieldMove(moves[i].x, moves[i].f))
    && (forall q :: 0 <= q < |ev| && ev[q].FieldMove? ==> PathRead(ev[q].x, ev[q].f, q + 1) in moves)
  }

  lemma MovesOkPlain(ev: Events, moves: seq<Cand>, e: Event)
    requires MovesOk(ev, moves) && !e.MoveUse?
    ensures MovesOk(ev + [e], moves)
  {
  }

  lemma MovesOkMore(ev: Events, moves: seq<Cand>, x: Slot, self: bool)
    requires MovesOk(ev, moves)
    ensures MovesOk(ev + [if self then SelfUse(x, false) else MoveUse(x)], moves + [Cand(x, |ev| + 1, self)])
  {
    var n := moves + [Cand(x, |ev| + 1, self)];
    var more := ev + [if self then SelfUse(x, false) else MoveUse(x)];
    forall i, j | 0 <= i < j < |n| ensures n[i].pos < n[j].pos { assert Genuine(ev, moves[i]); }
    forall i | 0 <= i < |n| ensures Genuine(more, n[i]) { if i < |moves| { assert Genuine(ev, moves[i]); } }
    forall q | 0 <= q < |more| && more[q].MoveUse? ensures Cand(more[q].x, q + 1, false) in n {
      if q < |ev| { assert Cand(ev[q].x, q + 1, false) in moves; } else {
        assert n[|moves|] == Cand(more[q].x, q + 1, false);
      }
    }
  }

  /** The candidates left when the self moves of one statement are settled. */
  lemma MovesOkSettled(ev: Events, moves: seq<Cand>, from: nat)
    requires MovesOk(ev, moves) && from <= |moves|
    ensures MovesOk(ev, moves[..from] + Others(moves[from..]))
  {
    hide Genuine;
    var tail := moves[from..];
    OthersKeep(tail);
    var n := moves[..from] + Others(tail);
    forall i | 0 <= i < |n| ensures Genuine(ev, n[i]) {
      if i >= from { assert n[i] in Others(tail) && n[i] in tail; }
    }
    forall i, j | 0 <= i < j < |n| ensures n[i].pos < n[j].pos {
      if i < from <= j {
        assert n[j] in Others(tail);
        var k :| 0 <= k < |tail| && tail[k] == n[j];
        assert moves[from + k] == n[j];
      }
    }
    forall q | 0 <= q < |ev| && ev[q].MoveUse? ensures Cand(ev[q].x, q + 1, false) in n {
      var c := Cand(ev[q].x, q + 1, false);
      var k :| 0 <= k < |moves| && moves[k] == c;
      if k >= from { assert tail[k - from] == c; }
    }
  }

  lemma {:induction false} OthersKeep(ms: seq<Cand>)
    requires forall i, j :: 0 <= i < j < |ms| ==> ms[i].pos < ms[j].pos
    ensures forall m :: m in Others(ms) <==> m in ms && !m.self
    ensures forall i, j :: 0 <= i < j < |Others(ms)| ==> Others(ms)[i].pos < Others(ms)[j].pos
  {
    if ms != [] {
      OthersKeep(ms[1..]);
      assert ms == [ms[0]] + ms[1..];
      forall j | 0 <= j < |Others(ms[1..])| ensures ms[0].pos < Others(ms[1..])[j].pos {
        assert Others(ms[1..])[j] in ms[1..];
      }
    }
  }

  function Others(ms: seq<Cand>): seq<Cand> {
    if ms == [] then [] else (if ms[0].self then [] else [ms[0]]) + Others(ms[1..])
  }

  lemma {:induction false} OthersSnoc(ms: seq<Cand>, m: Cand)
    ensures Others(ms + [m]) == Others(ms) + if m.self then [] else [m]
  {
    if ms == [] {
      assert [m][1..] == [];
    } else {
      OthersSnoc(ms[1..], m);
      assert (ms + [m])[1..] == ms[1..] + [m];
    }
  }

  function At(m: map<Slot, nat>, x: Slot): nat {
    if x in m then m[x] else 0
  }

  /** The last occurrence of the candidate's local is the candidate exactly when nothing later reads it. */
  lemma LastIsCandidate(ev: Events, m: Cand)
    requires Genuine(ev, m)
    ensures LastPos(ev, m.x) == m.pos <==> NoLater(ev, m.x, m.pos)
  {
    LastPosTells(ev, m.x, m.pos);
    LastPosTells(ev, m.x, m.pos - 1);
  }

  /** The verdict on a self candidate is at its position: nothing in the text so far reads its local later. */
  ghost predicate Verdict(ok: map<nat, bool>, ev: Events, m: Cand) {
    m.pos in ok && (ok[m.pos] <==> NoLater(ev, m.x, m.pos))
  }

  /** Verdicts at other positions stand. */
  ghost predicate Stand(was: map<nat, bool>, now: map<nat, bool>, changed: seq<Cand>) {
    forall p :: p in was && (forall i :: 0 <= i < |changed| ==> changed[i].pos != p) ==> p in now && now[p] == was[p]
  }

  ghost predicate SettledTo(ok: map<nat, bool>, ev: Events, all: seq<Cand>, from: nat, i: nat)
    requires i <= |all|
  {
    forall j :: from <= j < i && all[j].self ==> Verdict(ok, ev, all[j])
  }

  lemma SettledStart(ok: map<nat, bool>, ev: Events, all: seq<Cand>, from: nat)
    requires from <= |all|
    ensures SettledTo(ok, ev, all, from, from) && Stand(ok, ok, all[from..]) && Others([]) == []
  {
  }

  lemma SettledAll(ok: map<nat, bool>, ev: Events, all: seq<Cand>, from: nat)
    requires SettledTo(ok, ev, all, from, |all|)
    ensures forall i :: from <= i < |all| && all[i].self ==> Verdict(ok, ev, all[i])
  {
  }

  lemma OthersStep(ms: seq<Cand>, i: nat)
    requires i < |ms|
    ensures Others(ms[..i + 1]) == Others(ms[..i]) + if ms[i].self then [] else [ms[i]]
  {
    assert ms[..i + 1] == ms[..i] + [ms[i]];
    OthersSnoc(ms[..i], ms[i]);
  }

  lemma SettledStep(was: map<nat, bool>, ok: map<nat, bool>, ev: Events, all: seq<Cand>, from: nat, i: nat)
    requires MovesOk(ev, all) && from <= i < |all| && SettledTo(ok, ev, all, from, i) && Stand(was, ok, all[from..])
    ensures Genuine(ev, all[i])
    ensures !all[i].self ==> SettledTo(ok, ev, all, from, i + 1)
    ensures var now := ok[all[i].pos := NoLater(ev, all[i].x, all[i].pos)];
      SettledTo(now, ev, all, from, i + 1) && Stand(was, now, all[from..])
  {
    hide NoLater;
    assert all[from..][i - from] == all[i];
  }

  function Ranges(loops: seq<(nat, nat)>): set<(nat, nat)> {
    set l | l in loops
  }

  class Compiler {
    var pos: nat
    var lastPos: map<Slot, nat>
    var wholeLast: map<Slot, nat>
    var declPos: map<Slot, nat>
    var pathReads: seq<PathRead>
    var loops: seq<(nat, nat)>
    var moves: seq<Cand>
    var fieldMoves: seq<PathRead>
    /** The verdicts handed to the compiled code, by position. */
    var ok: map<nat, bool>
    /** Every occurrence so far. */
    ghost var ev: Events

    ghost predicate Valid()
      reads this
    {
      && Tables(pos, lastPos, wholeLast, declPos, pathReads, ev)
      && MovesOk(ev, moves)
      && FieldMovesOk(ev, fieldMoves)
    }

    constructor ()
      ensures Valid() && ev == [] && ok == map[] && moves == [] && fieldMoves == [] && loops == []
    {
      pos, lastPos, wholeLast, declPos := 0, map[], map[], map[];
      pathReads, loops, moves, fieldMoves, ok, ev := [], [], [], [], map[], [];
    }

    method Declare(x: Slot)
      requires Valid()
      modifies this`pos, this`lastPos, this`declPos, this`ev
      ensures Valid() && ev == old(ev) + [Decl(x)]
    {
      hide MovesOk, FieldMovesOk;
      MovesOkPlain(ev, moves, Decl(x));
      FieldMovesOkPlain(ev, fieldMoves, Decl(x));
      TablesDeclared(pos, lastPos, wholeLast, declPos, pathReads, ev, x);
      pos := pos + 1;
      declPos, lastPos := declPos[x := pos], lastPos[x := pos];
      ev := ev + [Decl(x)];
    }

    /** A whole occurrence that is no candidate. */
    method Lookup(x: Slot)
      requires Valid()
      modifies this`pos, this`lastPos, this`wholeLast, this`ev
      ensures Valid() && ev == old(ev) + [Use(x)]
    {
      hide MovesOk, FieldMovesOk;
      MovesOkPlain(ev, moves, Use(x));
      FieldMovesOkPlain(ev, fieldMoves, Use(x));
      TablesUsed(pos, lastPos, wholeLast, declPos, pathReads, ev, Use(x));
      pos := pos + 1;
      lastPos, wholeLast := lastPos[x := pos], wholeLast[x := pos];
      ev := ev + [Use(x)];
    }

    /** The root of a field path that is only read. */
    method LookupPath(x: Slot, f: nat)
      requires Valid()
      modifies this`pos, this`lastPos, this`pathReads, this`ev
      ensures Valid() && ev == old(ev) + [Path(x, f)]
    {
      hide MovesOk, FieldMovesOk;
      MovesOkPlain(ev, moves, Path(x, f));
      FieldMovesOkPlain(ev, fieldMoves, Path(x, f));
      TablesPath(pos, lastPos, wholeLast, declPos, pathReads, ev, Path(x, f), f);
      pos := pos + 1;
      lastPos := lastPos[x := pos];
      pathReads := pathReads + [PathRead(x, f, pos)];
      ev := ev + [Path(x, f)];
    }

    /** A bare local as an argument (`moveArgTo`): a candidate, a self candidate when the statement
      * assigns its result to the same local. */
    method MoveArg(x: Slot, target: int)
      requires Valid()
      modifies this`pos, this`lastPos, this`wholeLast, this`moves, this`ev
      ensures Valid() && moves == old(moves) + [Cand(x, |ev|, x == target)]
      ensures ev == old(ev) + [if x == target then SelfUse(x, false) else MoveUse(x)]
    {
      hide MovesOk, FieldMovesOk;
      ghost var e := if x == target then SelfUse(x, false) else MoveUse(x);
      MovesOkMore(ev, moves, x, x == target);
      FieldMovesOkPlain(ev, fieldMoves, e);
      TablesUsed(pos, lastPos, wholeLast, declPos, pathReads, ev, e);
      pos := pos + 1;
      lastPos, wholeLast := lastPos[x := pos], wholeLast[x := pos];
      moves := moves + [Cand(x, pos, x == target)];
      ev := ev + [e];
    }

    /** A field path as an argument: a field candidate. */
    method TakePath(x: Slot, f: nat)
      requires Valid()
      modifies this`pos, this`lastPos, this`pathReads, this`fieldMoves, this`ev
      ensures Valid() && ev == old(ev) + [FieldMove(x, f)]
    {
      hide MovesOk, FieldMovesOk;
      MovesOkPlain(ev, moves, FieldMove(x, f));
      FieldMovesOkMore(ev, fieldMoves, x, f);
      TablesPath(pos, lastPos, wholeLast, declPos, pathReads, ev, FieldMove(x, f), f);
      pos := pos + 1;
      lastPos := lastPos[x := pos];
      pathReads := pathReads + [PathRead(x, f, pos)];
      fieldMoves := fieldMoves + [PathRead(x, f, pos)];
      ev := ev + [FieldMove(x, f)];
    }

    method SettleOne(m: Cand)
      requires Valid() && Genuine(ev, m)
      modifies this`ok
      ensures Valid() && ok == old(ok)[m.pos := NoLater(ev, m.x, m.pos)]
    {
      LastIsCandidate(ev, m);
      ok := ok[m.pos := At(lastPos, m.x) == m.pos];
    }

    /** Settles the self candidates of the statement just compiled, before its target is assigned:
      * each moves when nothing after it in the statement reads the local. The others wait. */
    method SelfMoves(from: nat)
      requires Valid() && from <= |moves|
      modifies this`moves, this`ok
      ensures Valid() && moves == old(moves[..from]) + Others(old(moves[from..]))
      ensures forall i :: from <= i < |old(moves)| && old(moves)[i].self ==> Verdict(ok, ev, old(moves)[i])
      ensures Stand(old(ok), ok, old(moves[from..]))
    {
      hide NoLater, Tables, MovesOk, FieldMovesOk, Others, SettledTo, Stand;
      var head, tail := moves[..from], moves[from..];
      ghost var all := moves;
      MovesOkSettled(ev, all, from);
      SettledStart(ok, ev, all, from);
      var kept := head;
      ghost var others: seq<Cand> := [];
      assert tail[..0] == [];
      var i := 0;
      while i < |tail|
        invariant 0 <= i <= |tail| && kept == head + others && others == Others(tail[..i])
        invariant Valid() && moves == all
        invariant SettledTo(ok, ev, all, from, from + i) && Stand(old(ok), ok, tail)
      {
        var m := tail[i];
        assert m == all[from + i];
        OthersStep(tail, i);
        SettledStep(old(ok), ok, ev, all, from, from + i);
        if m.self {
          SettleOne(m);
        } else {
          kept := kept + [m];
          others := others + [m];
        }
        i := i + 1;
      }
      assert tail[..i] == tail;
      moves := kept;
      SettledAll(ok, ev, all, from);
    }

    /** No enclosing loop could run the occurrence at p again with the slot still live. */
    method LoopsAllow(x: Slot, p: nat) returns (allow: bool)
      requires Valid() && 1 <= p <= pos && LoopsSeen(loops, ev)
      ensures allow <==> LoopLocal(ev, Ranges(loops), x, p - 1)
    {
      allow := true;
      var i := 0;
      while i < |loops|
        invariant 0 <= i <= |loops|
        invariant allow
          <==> forall k :: 0 <= k < i && loops[k].0 <= p - 1 < loops[k].1 ==> DeclaredIn(ev, x, loops[k].0, |ev|)
      {
        hide DeclaredIn, MovesOk, FieldMovesOk;
        var l := loops[i];
        DeclPosTells(ev, x, l.0);
        if p > l.0 && p <= l.1 && At(declPos, x) <= l.0 {
          allow := false;
        }
        i := i + 1;
      }
      assert allow <==> forall l :: l in loops && l.0 <= p - 1 < l.1 ==> DeclaredIn(ev, x, l.0, |ev|);
    }

    /** At the end of the body every candidate left is decided, as the analysis decides it. */
    method DecideMoves()
      requires Valid() && LoopsSeen(loops, ev)
      requires forall i :: 0 <= i < |moves| ==> !moves[i].self
      modifies this`ok
      ensures Valid() && KeepsSelf(old(ok), ok, ev)
      ensures forall q :: 0 <= q < |ev| && (ev[q].MoveUse? || ev[q].FieldMove?) ==>
        Decided(ok, ev, Ranges(loops), q + 1)
    {
      hide Tables, FieldMovesOk, MovesOk;
      var i := 0;
      while i < |moves|
        invariant 0 <= i <= |moves| && Valid() && KeepsSelf(old(ok), ok, ev)
        invariant forall k :: 0 <= k < i ==> Decided(ok, ev, Ranges(loops), moves[k].pos)
      {
        CandGenuine(ev, moves, i);
        DecideOne(moves[i]);
        i := i + 1;
      }
      i := 0;
      while i < |fieldMoves|
        invariant 0 <= i <= |fieldMoves| && Valid() && KeepsSelf(old(ok), ok, ev)
        invariant forall k :: 0 <= k < |moves| ==> Decided(ok, ev, Ranges(loops), moves[k].pos)
        invariant forall k :: 0 <= k < i ==> Decided(ok, ev, Ranges(loops), fieldMoves[k].pos)
      {
        FieldCandGenuine(ev, fieldMoves, i);
        DecideOneField(fieldMoves[i]);
        i := i + 1;
      }
      AllCandidates(ok, ev, Ranges(loops), moves, fieldMoves);
    }

    method DecideOne(m: Cand)
      requires Valid() && LoopsSeen(loops, ev) && Genuine(ev, m) && !m.self
      modifies this`ok
      ensures Valid() && ok == old(ok)[m.pos := Decide(ev, Ranges(loops), m.pos - 1)]
    {
      hide MovesOk, FieldMovesOk, LoopLocal, NoLater;
      var allow := LoopsAllow(m.x, m.pos);
      LastIsCandidate(ev, m);
      DecideLocal(ev, Ranges(loops), m);
      ok := ok[m.pos := At(lastPos, m.x) == m.pos && allow];
    }

    method DecideOneField(m: PathRead)
      requires Valid() && LoopsSeen(loops, ev) && 1 <= m.pos <= |ev| && ev[m.pos - 1] == FieldMove(m.x, m.f)
      modifies this`ok
      ensures Valid() && ok == old(ok)[m.pos := Decide(ev, Ranges(loops), m.pos - 1)]
    {
      hide MovesOk, FieldMovesOk, LoopLocal, NoPath, NoWhole;
      var allow := LoopsAllow(m.x, m.pos);
      var alone := NoPathLater(m);
      WholePosTells(ev, m.x, m.pos - 1);
      DecideField(ev, Ranges(loops), m);
      ok := ok[m.pos := At(wholeLast, m.x) < m.pos && alone && allow];
    }

    /** No later read of the path, or of the local whole, shows the field again. */
    method NoPathLater(m: PathRead) returns (alone: bool)
      requires Valid() && 1 <= m.pos <= |ev|
      ensures alone <==> NoPath(ev, m.x, m.f, m.pos)
    {
      alone := true;
      var i := 0;
      while i < |pathReads|
        invariant 0 <= i <= |pathReads|
        invariant alone
          <==> forall k :: 0 <= k < i ==> !(pathReads[k].x == m.x && pathReads[k].f == m.f && pathReads[k].pos > m.pos)
      {
        hide MovesOk, FieldMovesOk;
        var r := pathReads[i];
        if r.x == m.x && r.pos > m.pos && r.f == m.f {
          alone := false;
        }
        i := i + 1;
      }
      PathReadsLater(ev, m);
    }
  }

  ghost predicate Tables(pos: nat, lastPos: map<Slot, nat>, wholeLast: map<Slot, nat>, declPos: map<Slot, nat>,
          pathReads: seq<PathRead>, ev: Events) {
    && pos == |ev|
    && (forall x: Slot :: At(lastPos, x) == LastPos(ev, x))
    && (forall x: Slot :: At(wholeLast, x) == WholePos(ev, x))
    && (forall x: Slot :: At(declPos, x) == DeclPos(ev, x))
    && pathReads == PathReads(ev)
  }

  lemma TablesDeclared(pos: nat, lastPos: map<Slot, nat>, wholeLast: map<Slot, nat>, declPos: map<Slot, nat>,
          pathReads: seq<PathRead>, ev: Events, x: Slot)
    requires Tables(pos, lastPos, wholeLast, declPos, pathReads, ev)
    ensures Tables(pos + 1, lastPos[x := pos + 1], wholeLast, declPos[x := pos + 1], pathReads, ev + [Decl(x)])
  {
    var n := ev + [Decl(x)];
    assert n[..|n| - 1] == ev && n[|n| - 1] == Decl(x);
    forall y: Slot
      ensures At(lastPos[x := pos + 1], y) == LastPos(n, y) && At(wholeLast, y) == WholePos(n, y)
        && At(declPos[x := pos + 1], y) == DeclPos(n, y)
    {
      assert At(lastPos, y) == LastPos(ev, y) && At(wholeLast, y) == WholePos(ev, y)
        && At(declPos, y) == DeclPos(ev, y);
    }
  }

  lemma TablesUsed(pos: nat, lastPos: map<Slot, nat>, wholeLast: map<Slot, nat>, declPos: map<Slot, nat>,
          pathReads: seq<PathRead>, ev: Events, e: Event)
    requires Tables(pos, lastPos, wholeLast, declPos, pathReads, ev) && Whole(e)
    ensures Tables(pos + 1, lastPos[e.x := pos + 1], wholeLast[e.x := pos + 1], declPos, pathReads, ev + [e])
  {
    var n := ev + [e];
    assert n[..|n| - 1] == ev && n[|n| - 1] == e;
    forall y: Slot
      ensures At(lastPos[e.x := pos + 1], y) == LastPos(n, y) && At(wholeLast[e.x := pos + 1], y) == WholePos(n, y)
        && At(declPos, y) == DeclPos(n, y)
    {
      assert At(lastPos, y) == LastPos(ev, y) && At(wholeLast, y) == WholePos(ev, y)
        && At(declPos, y) == DeclPos(ev, y);
    }
  }

  lemma TablesPath(pos: nat, lastPos: map<Slot, nat>, wholeLast: map<Slot, nat>, declPos: map<Slot, nat>,
          pathReads: seq<PathRead>, ev: Events, e: Event, f: nat)
    requires Tables(pos, lastPos, wholeLast, declPos, pathReads, ev) && ReadsPath(e, f)
    ensures Tables(pos + 1, lastPos[e.x := pos + 1], wholeLast, declPos, pathReads + [PathRead(e.x, f, pos + 1)], ev
      + [e])
  {
    var n := ev + [e];
    assert n[..|n| - 1] == ev && n[|n| - 1] == e;
    forall y: Slot
      ensures At(lastPos[e.x := pos + 1], y) == LastPos(n, y) && At(wholeLast, y) == WholePos(n, y)
        && At(declPos, y) == DeclPos(n, y)
    {
      assert At(lastPos, y) == LastPos(ev, y) && At(wholeLast, y) == WholePos(ev, y)
        && At(declPos, y) == DeclPos(ev, y);
    }
  }

  lemma FieldMovesOkPlain(ev: Events, moves: seq<PathRead>, e: Event)
    requires FieldMovesOk(ev, moves) && !e.FieldMove?
    ensures FieldMovesOk(ev + [e], moves)
  {
  }

  lemma FieldMovesOkMore(ev: Events, moves: seq<PathRead>, x: Slot, f: nat)
    requires FieldMovesOk(ev, moves)
    ensures FieldMovesOk(ev + [FieldMove(x, f)], moves + [PathRead(x, f, |ev| + 1)])
  {
    var more, n := ev + [FieldMove(x, f)], moves + [PathRead(x, f, |ev| + 1)];
    forall q | 0 <= q < |more| && more[q].FieldMove? ensures PathRead(more[q].x, more[q].f, q + 1) in n {
      if q < |ev| { assert PathRead(ev[q].x, ev[q].f, q + 1) in moves; } else {
        assert n[|moves|] == PathRead(x, f, q + 1);
      }
    }
  }

  /** Every loop compiled began within the text compiled. */
  ghost predicate LoopsSeen(loops: seq<(nat, nat)>, ev: Events) {
    forall i :: 0 <= i < |loops| ==> loops[i].0 <= |ev|
  }

  lemma CandGenuine(ev: Events, moves: seq<Cand>, i: nat)
    requires MovesOk(ev, moves) && i < |moves|
    ensures Genuine(ev, moves[i])
  {
  }

  lemma FieldCandGenuine(ev: Events, moves: seq<PathRead>, i: nat)
    requires FieldMovesOk(ev, moves) && i < |moves|
    ensures 1 <= moves[i].pos <= |ev| && ev[moves[i].pos - 1] == FieldMove(moves[i].x, moves[i].f)
  {
  }

  lemma AllCandidates(ok: map<nat, bool>, ev: Events, loops: set<(nat, nat)>, moves: seq<Cand>,
          fieldMoves: seq<PathRead>)
    requires MovesOk(ev, moves) && FieldMovesOk(ev, fieldMoves)
    requires forall k :: 0 <= k < |moves| ==> Decided(ok, ev, loops, moves[k].pos)
    requires forall k :: 0 <= k < |fieldMoves| ==> Decided(ok, ev, loops, fieldMoves[k].pos)
    ensures forall q :: 0 <= q < |ev| && (ev[q].MoveUse? || ev[q].FieldMove?) ==> Decided(ok, ev, loops, q + 1)
  {
    hide Decided;
    forall q | 0 <= q < |ev| && (ev[q].MoveUse? || ev[q].FieldMove?) ensures Decided(ok, ev, loops, q + 1) {
      if ev[q].MoveUse? {
        var k :| 0 <= k < |moves| && moves[k] == Cand(ev[q].x, q + 1, false);
      } else {
        var k :| 0 <= k < |fieldMoves| && fieldMoves[k] == PathRead(ev[q].x, ev[q].f, q + 1);
      }
    }
  }

  ghost predicate Decided(ok: map<nat, bool>, ev: Events, loops: set<(nat, nat)>, p: nat) {
    p >= 1 && p in ok && (ok[p] <==> Decide(ev, loops, p - 1))
  }

  ghost predicate KeepsSelf(was: map<nat, bool>, now: map<nat, bool>, ev: Events) {
    forall p :: p in was && 1 <= p <= |ev| && ev[p - 1].SelfUse? ==> p in now && now[p] == was[p]
  }

  lemma DecideLocal(ev: Events, loops: set<(nat, nat)>, m: Cand)
    requires Genuine(ev, m) && !m.self
    ensures Decide(ev, loops, m.pos - 1) <==> NoLater(ev, m.x, m.pos) && LoopLocal(ev, loops, m.x, m.pos - 1)
  {
  }

  lemma DecideField(ev: Events, loops: set<(nat, nat)>, m: PathRead)
    requires 1 <= m.pos <= |ev| && ev[m.pos - 1] == FieldMove(m.x, m.f)
    ensures Decide(ev, loops, m.pos - 1)
      <==> NoWhole(ev, m.x, m.pos - 1) && NoPath(ev, m.x, m.f, m.pos) && LoopLocal(ev, loops, m.x, m.pos - 1)
  {
  }

  lemma PathReadsLater(ev: Events, m: PathRead)
    requires 1 <= m.pos <= |ev|
    ensures var rs := PathReads(ev);
      (forall k :: 0 <= k < |rs| ==> !(rs[k].x == m.x && rs[k].f == m.f && rs[k].pos > m.pos))
        <==> NoPath(ev, m.x, m.f, m.pos)
  {
    var rs := PathReads(ev);
    if k :| 0 <= k < |rs| && rs[k].x == m.x && rs[k].f == m.f && rs[k].pos > m.pos {
      PathReadsTell(ev, rs[k]);
      assert ev[rs[k].pos - 1].x == m.x;
    }
    if q :| m.pos <= q < |ev| && ev[q].x == m.x && ReadsPath(ev[q], m.f) {
      PathReadsTell(ev, PathRead(m.x, m.f, q + 1));
      var k :| 0 <= k < |rs| && rs[k] == PathRead(m.x, m.f, q + 1);
    }
  }
}
