// Splitting a list's predicate into the half the store evaluates and the half rechecked here
// (runtime/region.go, runtime/pushdown.go).
module PredicateSplit {
  import opened Options
  import opened TextNumbers
  import opened TextOrder
  import opened Expressions
  import opened LiteralTyping

  datatype Entity = Entity(name: string, fields: map<string, FieldType>, softDelete: bool, readRule: Option<Expr>)

  const ROW := "$row"

  // ---- the pieces ----

  // Whether an expression reads the named variable or collection anywhere.
  predicate Mentions(e: Expr, name: string)
    decreases e, 0
  {
    match e
    case Lit(_) => false
    case ListOf(args) => MentionsAny(args, name)
    case Ref(n) => n == name
    case Get(obj, _) => Mentions(obj, name)
    case Lookup(coll, key, _) => coll == name || Mentions(key, name)
    case Agg(_, coll, _, where, _) => coll == name || (where.Some? && Mentions(where.value, name))
    case Call(_, args) => MentionsAny(args, name)
    case Bin(_, l, r) => Mentions(l, name) || Mentions(r, name)
    case Un(_, x) => Mentions(x, name)
  }

  predicate MentionsAny(es: seq<Expr>, name: string)
    decreases es, 0
  {
    es != [] && (Mentions(es[0], name) || MentionsAny(es[1..], name))
  }

  // A runtime value as a literal; what is neither a scalar nor a list becomes its text.
  function LitExpr(v: Value): Expr
    decreases v, 0
  {
    match v
    case VBool(_) => Lit(v)
    case VInt(_) => Lit(v)
    case VList(vs) => ListOf(LitExprs(vs))
    case _ => Lit(VText(ToStr(v)))
  }

  function LitExprs(vs: seq<Value>): (es: seq<Expr>)
    ensures |es| == |vs|
    decreases vs, 0
  {
    if vs == [] then [] else [LitExpr(vs[0])] + LitExprs(vs[1..])
  }

  // Everything that does not read the item becomes the literal it evaluates to here.
  function FoldOuter(e: Expr, item: string, s: Scope): Expr {
    if !Mentions(e, item) then LitExpr(Eval(e, s))
    else
      match e
      case Bin(op, l, r) => Bin(op, FoldOuter(l, item, s), FoldOuter(r, item, s))
      case Un(op, x) => Un(op, FoldOuter(x, item, s))
      case _ => e
  }

  function SplitConj(e: Expr): seq<Expr> {
    if e.Bin? && e.bop == And then SplitConj(e.l) + SplitConj(e.r) else [e]
  }

  function AndExpr(a: Option<Expr>, b: Option<Expr>): Option<Expr> {
    if a.None? then b else if b.None? then a else Some(Bin(And, a.value, b.value))
  }

  // The subset every store promises to serve.
  predicate Pushable(e: Expr, item: string) {
    match e
    case Lit(v) => v.VBool? || v.VInt? || v.VText?
    case Get(obj, _) => obj == Ref(item)
    case Un(_, x) => Pushable(x, item)
    case Bin(op, l, r) => Pushable(l, item) && Pushable(r, item) && op != In
    case _ => false
  }

  function ColumnOf(ent: Entity, field: string): Option<FieldType> {
    if field == "id" then Some(IntField)
    else if field in ent.fields then Some(ent.fields[field]) else None
  }

  function ComparedField(e: Expr, ent: Entity, item: string): Option<FieldType> {
    if e.Get? && e.obj == Ref(item) then ColumnOf(ent, e.field) else None
  }

  function Retyped(column: Expr, e: Expr, ent: Entity, item: string): Expr {
    var f := ComparedField(column, ent, item);
    if f.Some? && e.Lit? then LitFor(f.value, ToStr(e.v)) else e
  }

  // Re-types each literal to the column it is compared with.
  function TypeLiterals(e: Expr, ent: Entity, item: string): Expr {
    if !e.Bin? then e
    else if e.bop == And || e.bop == Or then Bin(e.bop, TypeLiterals(e.l, ent, item), TypeLiterals(e.r, ent, item))
    else Bin(e.bop, Retyped(e.r, e.l, ent, item), Retyped(e.l, e.r, ent, item))
  }

  // A copy of an entity's read rule with its row variable renamed to the query's.
  function RenameRowVar(e: Expr, to: string): Expr
    decreases e, 0
  {
    match e
    case Lit(_) => e
    case ListOf(args) => ListOf(RenameAll(args, to))
    case Ref(n) => if n == ROW then Ref(to) else e
    case Get(obj, f) => Get(RenameRowVar(obj, to), f)
    case Lookup(coll, key, f) => Lookup(coll, RenameRowVar(key, to), f)
    case Agg(op, coll, item, where, f) =>
      Agg(op, coll, item, if where.None? then None else Some(RenameRowVar(where.value, to)), f)
    case Call(fn, args) => Call(fn, RenameAll(args, to))
    case Bin(op, l, r) => Bin(op, RenameRowVar(l, to), RenameRowVar(r, to))
    case Un(op, x) => Un(op, RenameRowVar(x, to))
  }

  function RenameAll(es: seq<Expr>, to: string): (r: seq<Expr>)
    ensures |r| == |es|
    decreases es, 0
  {
    if es == [] then [] else [RenameRowVar(es[0], to)] + RenameAll(es[1..], to)
  }

  function ApplyReadPolicy(ent: Entity, item: string, where: Option<Expr>): Option<Expr> {
    if ent.readRule.None? then where else AndExpr(Some(RenameRowVar(ent.readRule.value, item)), where)
  }

  // ---- what they mean ----

  ghost predicate AgreeBut(a: Scope, b: Scope, name: string) {
    forall n: string :: n != name ==> Read(a, n) == Read(b, n)
  }

  lemma AgreeButBound(a: Scope, b: Scope, name: string, item: string, row: Value)
    requires AgreeBut(a, b, name)
    ensures AgreeBut(a[item := row], b[item := row], name)
  {
    var x, y := a[item := row], b[item := row];
    forall n: string | n != name ensures Read(x, n) == Read(y, n) {
      assert Read(a, n) == Read(b, n);
    }
  }

  // An expression that does not mention a variable does not depend on it.
  lemma {:induction false} Unmentioned(e: Expr, name: string, a: Scope, b: Scope)
    requires !Mentions(e, name) && AgreeBut(a, b, name)
    ensures Eval(e, a) == Eval(e, b)
    decreases e, 2, 0
  {
    match e
    case Lit(_) =>
    case ListOf(args) => UnmentionedAll(args, name, a, b);
    case Ref(_) =>
    case Get(obj, _) => Unmentioned(obj, name, a, b);
    case Lookup(_, key, _) => Unmentioned(key, name, a, b);
    case Agg(_, coll, _, _, _) => UnmentionedRows(e, RowsOf(a, coll), name, a, b);
    case Call(_, args) => UnmentionedAll(args, name, a, b);
    case Bin(_, l, r) => Unmentioned(l, name, a, b); Unmentioned(r, name, a, b);
    case Un(_, x) => Unmentioned(x, name, a, b);
  }

  lemma {:induction false} UnmentionedAll(es: seq<Expr>, name: string, a: Scope, b: Scope)
    requires !MentionsAny(es, name) && AgreeBut(a, b, name)
    ensures EvalAll(es, a) == EvalAll(es, b)
    decreases es, 0
  {
    if es != [] { Unmentioned(es[0], name, a, b); UnmentionedAll(es[1..], name, a, b); }
  }

  lemma {:induction false} UnmentionedRows(e: Expr, rows: seq<Value>, name: string, a: Scope, b: Scope)
    requires e.Agg? && !Mentions(e, name) && AgreeBut(a, b, name)
    ensures Matching(e, rows, a) == Matching(e, rows, b)
    decreases e, 1, |rows|
  {
    if e.where.Some? && rows != [] {
      AgreeButBound(a, b, name, e.item, rows[0]);
      Unmentioned(e.where.value, name, a[e.item := rows[0]], b[e.item := rows[0]]);
      UnmentionedRows(e, rows[1..], name, a, b);
    }
  }

  // A predicate in the pushable subset reads nothing but the item.
  lemma {:induction false} PushableIsLocal(e: Expr, item: string, a: Scope, b: Scope)
    requires Pushable(e, item) && Read(a, item) == Read(b, item)
    ensures Eval(e, a) == Eval(e, b)
  {
    match e
    case Lit(_) =>
    case Get(obj, _) =>
    case Un(_, x) => PushableIsLocal(x, item, a, b);
    case Bin(_, l, r) => PushableIsLocal(l, item, a, b); PushableIsLocal(r, item, a, b);
  }

  // A comparison of a column with anything computed outside the row, other than a list, is pushed once it
  // is folded and retyped; so is the negation of what is pushed.
  lemma ComparisonPushed(op: Op, field: string, e: Expr, ent: Entity, item: string, s: Scope)
    requires op in {Eq, Ne, Lt, Le, Gt, Ge} && !Mentions(e, item) && !Eval(e, s).VList?
    ensures Pushable(TypeLiterals(FoldOuter(Bin(op, Get(Ref(item), field), e), item, s), ent, item), item)
    ensures Pushable(TypeLiterals(FoldOuter(Bin(op, e, Get(Ref(item), field)), item, s), ent, item), item)
  {
    hide Eval;
    assert Mentions(Get(Ref(item), field), item);
    assert FoldOuter(e, item, s) == LitExpr(Eval(e, s));
    assert FoldOuter(Get(Ref(item), field), item, s) == Get(Ref(item), field);
  }

  // Values a literal stands for exactly.
  predicate Foldable(v: Value) {
    match v
    case VBool(_) => true
    case VInt(_) => true
    case VText(_) => true
    case VList(vs) => forall i :: 0 <= i < |vs| ==> Foldable(vs[i])
    case _ => false
  }

  // Folding is exact on a value if and only if the value is a bool, a number, a text or a list of
  // those: nil folds to the empty text and a record to text too.
  lemma {:induction false} LitExact(v: Value, s: Scope)
    ensures Eval(LitExpr(v), s) == v <==> Foldable(v)
    decreases v, 1
  {
    if v.VList? { LitsExact(v.vs, s); }
  }

  lemma {:induction false} LitsExact(vs: seq<Value>, s: Scope)
    ensures EvalAll(LitExprs(vs), s) == vs <==> forall i :: 0 <= i < |vs| ==> Foldable(vs[i])
    decreases vs, 0
  {
    if vs != [] {
      LitExact(vs[0], s);
      LitsExact(vs[1..], s);
      var es := LitExprs(vs);
      assert es[1..] == LitExprs(vs[1..]);
      var out := EvalAll(es, s);
      assert out[0] == Eval(LitExpr(vs[0]), s) && out[1..] == EvalAll(LitExprs(vs[1..]), s);
      assert vs == [vs[0]] + vs[1..] && out == [out[0]] + out[1..];
      assert (forall i :: 0 <= i < |vs| ==> Foldable(vs[i])) <==>
        Foldable(vs[0]) && (forall i :: 0 <= i < |vs[1..]| ==> Foldable(vs[1..][i])) by {
        if Foldable(vs[0]) && forall i :: 0 <= i < |vs[1..]| ==> Foldable(vs[1..][i]) {
          forall i | 0 <= i < |vs| ensures Foldable(vs[i]) { if i > 0 { assert vs[i] == vs[1..][i - 1]; } }
        }
        if forall i :: 0 <= i < |vs| ==> Foldable(vs[i]) {
          forall i | 0 <= i < |vs[1..]| ensures Foldable(vs[1..][i]) { assert vs[1..][i] == vs[i + 1]; }
        }
      }
    }
  }

  // An operand that is null and folds to the empty text compares with `y` as a null does: what a caller
  // can check of the stored side.
  predicate NilKept(op: Op, y: Value) {
    match op
    case Eq => NilEqualityKept(y)
    case Ne => NilEqualityKept(y)
    case Lt => NilOrderKept(y)
    case Le => NilOrderKept(y)
    case Gt => NilOrderKept(y)
    case Ge => NilOrderKept(y)
    case Add => y.VText?
    case In => y.VList? ==> forall i :: 0 <= i < |y.vs| ==> NilEqualityKept(y.vs[i])
    case _ => true
  }

  predicate NilEqualityKept(y: Value) {
    (y.VInt? || y.VBool?) ==> Truthy(y)
  }

  predicate NilOrderKept(y: Value) {
    match y
    case VInt(n) => n > 0
    case VBool(b) => b
    case VList(_) => ToStr(y) == ""
    case _ => true
  }

  lemma NilComparesAlike(y: Value)
    ensures NilEqualityKept(y) <==> SameEquality(y, VNil, VText(""))
    ensures NilOrderKept(y) <==> Less(y, VNil) == Less(y, VText("")) && Less(VNil, y) == Less(VText(""), y)
    ensures NilOrderKept(y) <==> LessEq(y, VNil) == LessEq(y, VText("")) && LessEq(VNil, y) == LessEq(VText(""), y)
  {
    hide Itoa;
  }

  // Exactly then, membership in a list aside, where what differs in one element may not matter.
  lemma NilKeptExact(op: Op, y: Value)
    requires op != And && op != Or && op != In
    ensures NilKept(op, y) <==> ApplyBin(op, VNil, y) == ApplyBin(op, VText(""), y)
                                && ApplyBin(op, y, VNil) == ApplyBin(op, y, VText(""))
  {
    NilComparesAlike(y);
    assert Atoi("") == 0;
    hide Equal, Less, LessEq, Atoi, Itoa, NilEqualityKept, NilOrderKept;
    match op
    case Eq =>
    case Ne =>
    case Lt =>
    case Le =>
    case Gt =>
    case Ge =>
    case _ =>
  }

  // What the folded operand `part` gives beside `other` on this row.
  predicate NilBeside(op: Op, part: Expr, other: Expr, item: string, s: Scope, row: Value) {
    !Mentions(part, item) && Eval(part, s) == VNil && NilKept(op, Eval(other, s[item := row]))
  }

  // Every part that is folded here evaluates to a value a literal stands for, or to a null that on this
  // row compares as the empty text does.
  predicate FoldsExactly(e: Expr, item: string, s: Scope, row: Value) {
    if !Mentions(e, item) then Foldable(Eval(e, s))
    else
      match e
      case Bin(op, l, r) =>
        && (NilBeside(op, l, r, item, s, row) || FoldsExactly(l, item, s, row))
        && (NilBeside(op, r, l, item, s, row) || FoldsExactly(r, item, s, row))
      case Un(_, x) => FoldsExactly(x, item, s, row)
      case _ => true
  }

  lemma {:induction false} FoldKeepsMeaning(e: Expr, item: string, s: Scope, row: Value)
    requires FoldsExactly(e, item, s, row)
    ensures Eval(FoldOuter(e, item, s), s[item := row]) == Eval(e, s[item := row])
  {
    if !Mentions(e, item) {
      LitExact(Eval(e, s), s[item := row]);
      Unmentioned(e, item, s, s[item := row]);
    } else {
      match e
      case Bin(op, l, r) =>
        if NilBeside(op, l, r, item, s, row) {
          FoldKeepsMeaning(r, item, s, row);
          NilFolds(op, l, r, item, s, row);
        } else if NilBeside(op, r, l, item, s, row) {
          FoldKeepsMeaning(l, item, s, row);
          NilFolds(op, r, l, item, s, row);
        } else {
          FoldKeepsMeaning(l, item, s, row);
          FoldKeepsMeaning(r, item, s, row);
        }
      case Un(_, x) => FoldKeepsMeaning(x, item, s, row);
      case _ =>
    }
  }

  // As a whole predicate, a null counts as false and so does the empty text.
  predicate FoldsTrue(e: Expr, item: string, s: Scope, row: Value) {
    (!Mentions(e, item) && Eval(e, s) == VNil) || FoldsExactly(e, item, s, row)
  }

  lemma FoldKeepsTruth(e: Expr, item: string, s: Scope, row: Value)
    requires FoldsTrue(e, item, s, row)
    ensures Truthy(Eval(FoldOuter(e, item, s), s[item := row])) <==> Truthy(Eval(e, s[item := row]))
  {
    if FoldsExactly(e, item, s, row) {
      FoldKeepsMeaning(e, item, s, row);
    } else {
      Unmentioned(e, item, s, s[item := row]);
    }
  }

  // The operator on a folded null, on either side of what does not fold to one.
  lemma NilFolds(op: Op, part: Expr, other: Expr, item: string, s: Scope, row: Value)
    requires NilBeside(op, part, other, item, s, row)
    ensures var t := s[item := row]; var y := Eval(other, t);
      && Eval(part, t) == VNil && Eval(FoldOuter(part, item, s), t) == VText("")
      && (op != And && op != Or ==>
            ApplyBin(op, VNil, y) == ApplyBin(op, VText(""), y) && ApplyBin(op, y, VNil) == ApplyBin(op, y, VText("")))
  {
    Unmentioned(part, item, s, s[item := row]);
    var y := Eval(other, s[item := row]);
    if op == In {
      NilMember(y);
    } else if op != And && op != Or {
      NilKeptExact(op, y);
    }
  }

  lemma NilMember(y: Value)
    requires NilKept(In, y)
    ensures ApplyBin(In, VNil, y) == ApplyBin(In, VText(""), y) && ApplyBin(In, y, VNil) == ApplyBin(In, y, VText(""))
  {
    if y.VList? {
      forall i | 0 <= i < |y.vs| ensures Equal(VNil, y.vs[i]) == Equal(VText(""), y.vs[i]) {
        NilComparesAlike(y.vs[i]);
      }
    }
  }

  predicate Holds(p: Option<Expr>, s: Scope) {
    p.None? || Truthy(Eval(p.value, s))
  }

  predicate AllHold(ps: seq<Expr>, s: Scope) {
    forall i :: 0 <= i < |ps| ==> Truthy(Eval(ps[i], s))
  }

  lemma {:induction false} ConjunctsMeanAll(e: Expr, s: Scope)
    ensures AllHold(SplitConj(e), s) <==> Truthy(Eval(e, s))
  {
    if e.Bin? && e.bop == And {
      ConjunctsMeanAll(e.l, s);
      ConjunctsMeanAll(e.r, s);
      AllHoldConcat(SplitConj(e.l), SplitConj(e.r), s);
    } else {
      assert SplitConj(e)[0] == e;
    }
  }

  lemma AllHoldConcat(a: seq<Expr>, b: seq<Expr>, s: Scope)
    ensures AllHold(a + b, s) <==> AllHold(a, s) && AllHold(b, s)
  {
    if AllHold(a + b, s) {
      forall i | 0 <= i < |a| ensures Truthy(Eval(a[i], s)) { assert (a + b)[i] == a[i]; }
      forall i | 0 <= i < |b| ensures Truthy(Eval(b[i], s)) { assert (a + b)[|a| + i] == b[i]; }
    }
  }

  lemma AndMeansBoth(a: Option<Expr>, b: Option<Expr>, s: Scope)
    ensures Holds(AndExpr(a, b), s) <==> Holds(a, s) && Holds(b, s)
  {
  }

  // No aggregate of the read rule whose predicate reads the rule's row binds that row's name or the
  // query's.
  predicate NoCapture(e: Expr, to: string)
    decreases e, 0
  {
    match e
    case Lit(_) => true
    case ListOf(args) => NoCaptures(args, to)
    case Ref(_) => true
    case Get(obj, _) => NoCapture(obj, to)
    case Lookup(coll, key, _) => coll != ROW && NoCapture(key, to)
    case Agg(_, coll, item, where, _) =>
      coll != ROW && (where.Some? && Mentions(where.value, ROW) ==>
        item != to && item != ROW && NoCapture(where.value, to))
    case Call(_, args) => NoCaptures(args, to)
    case Bin(_, l, r) => NoCapture(l, to) && NoCapture(r, to)
    case Un(_, x) => NoCapture(x, to)
  }

  predicate NoCaptures(es: seq<Expr>, to: string)
    decreases es, 0
  {
    es == [] || (NoCapture(es[0], to) && NoCaptures(es[1..], to))
  }

  // The renamed rule says of the query's row what the rule says of its own.
  lemma {:induction false} RenameKeepsMeaning(e: Expr, to: string, s: Scope)
    requires NoCapture(e, to)
    ensures Eval(RenameRowVar(e, to), s) == Eval(e, s[ROW := Read(s, to)])
    decreases e, 2, 0
  {
    var t := s[ROW := Read(s, to)];
    match e
    case Lit(_) =>
    case ListOf(args) => RenameAllKeeps(args, to, s);
    case Ref(_) =>
    case Get(obj, _) => RenameKeepsMeaning(obj, to, s);
    case Lookup(_, key, _) => RenameKeepsMeaning(key, to, s);
    case Agg(_, coll, _, where, _) =>
      if Mentions(e, ROW) {
        RenameKeepsRows(e, RowsOf(s, coll), to, s);
      } else {
        RenameNothing(e, to);
        Unmentioned(e, ROW, s, t);
      }
    case Call(_, args) => RenameAllKeeps(args, to, s);
    case Bin(_, l, r) => RenameKeepsMeaning(l, to, s); RenameKeepsMeaning(r, to, s);
    case Un(_, x) => RenameKeepsMeaning(x, to, s);
  }

  // Where the rule's row is not read the renaming changes nothing.
  lemma {:induction false} RenameNothing(e: Expr, to: string)
    requires !Mentions(e, ROW)
    ensures RenameRowVar(e, to) == e
    decreases e, 1
  {
    match e
    case ListOf(args) => RenameNone(args, to);
    case Get(obj, _) => RenameNothing(obj, to);
    case Lookup(_, key, _) => RenameNothing(key, to);
    case Agg(_, _, _, where, _) => if where.Some? { RenameNothing(where.value, to); }
    case Call(_, args) => RenameNone(args, to);
    case Bin(_, l, r) => RenameNothing(l, to); RenameNothing(r, to);
    case Un(_, x) => RenameNothing(x, to);
    case _ =>
  }

  lemma {:induction false} RenameNone(es: seq<Expr>, to: string)
    requires !MentionsAny(es, ROW)
    ensures RenameAll(es, to) == es
    decreases es, 0
  {
    if es != [] { RenameNothing(es[0], to); RenameNone(es[1..], to); }
  }

  lemma {:induction false} RenameAllKeeps(es: seq<Expr>, to: string, s: Scope)
    requires NoCaptures(es, to)
    ensures EvalAll(RenameAll(es, to), s) == EvalAll(es, s[ROW := Read(s, to)])
    decreases es, 0
  {
    if es != [] {
      RenameKeepsMeaning(es[0], to, s);
      RenameAllKeeps(es[1..], to, s);
      assert RenameAll(es, to)[1..] == RenameAll(es[1..], to);
    }
  }

  lemma {:induction false} RenameKeepsRows(e: Expr, rows: seq<Value>, to: string, s: Scope)
    requires e.Agg? && NoCapture(e, to) && Mentions(e, ROW)
    ensures Matching(RenameRowVar(e, to), rows, s) == Matching(e, rows, s[ROW := Read(s, to)])
    decreases e, 1, |rows|
  {
    if e.where.Some? && rows != [] {
      var inner := s[e.item := rows[0]];
      RenameKeepsMeaning(e.where.value, to, inner);
      assert inner[ROW := Read(inner, to)] == s[ROW := Read(s, to)][e.item := rows[0]];
      RenameKeepsRows(e, rows[1..], to, s);
    }
  }

  // ---- the split ----

  function NotArchived(item: string): Expr {
    Bin(Eq, Get(Ref(item), "archived"), Lit(VBool(false)))
  }

  // What the split is asked to mean for one row: the query's predicate, and for a softdelete entity
  // the row is not archived.
  predicate Wanted(ent: Entity, item: string, where: Option<Expr>, s: Scope) {
    Holds(where, s) && (ent.softDelete ==> Truthy(Eval(NotArchived(item), s)))
  }

  function Conjuncts(ent: Entity, item: string, where: Option<Expr>, s: Scope): seq<Expr> {
    (if ent.softDelete then [NotArchived(item)] else [])
    + if where.None? then [] else SplitConj(FoldOuter(where.value, item, s))
  }

  // Comparing a stored value of the column with the literal survives retyping.
  predicate ComparisonKept(op: Op, f: FieldType, x: Value, v: Value) {
    TypedAs(f, ToStr(v)) == v
    || (Scalar(v) && match op
                     case Eq => Fits(f, x) && EqualityKept(f, x, v)
                     case Ne => Fits(f, x) && EqualityKept(f, x, v)
                     case Lt => OrderKept(f, x, v)
                     case Le => OrderKept(f, x, v)
                     case Gt => OrderKept(f, x, v)
                     case Ge => OrderKept(f, x, v)
                     case _ => false)
  }

  predicate SideKept(op: Op, column: Expr, lit: Expr, ent: Entity, item: string, row: Value) {
    var f := ComparedField(column, ent, item);
    f.Some? && lit.Lit? ==> ComparisonKept(op, f.value, FieldOf(row, column.field), lit.v)
  }

  // Every comparison that retyping touches survives it on this row.
  predicate RetypeKept(e: Expr, ent: Entity, item: string, row: Value) {
    e.Bin? ==>
      if e.bop == And || e.bop == Or then RetypeKept(e.l, ent, item, row) && RetypeKept(e.r, ent, item, row)
      else SideKept(e.bop, e.l, e.r, ent, item, row) && SideKept(e.bop, e.r, e.l, ent, item, row)
  }

  // Two values that compare alike with `x` are compared alike by the operator, on either side.
  lemma SameApplied(op: Op, x: Value, v: Value, w: Value)
    requires if op == Eq || op == Ne then SameEquality(x, v, w) else op in {Lt, Le, Gt, Ge} && SameOrder(x, v, w)
    ensures ApplyBin(op, x, w) == ApplyBin(op, x, v) && ApplyBin(op, w, x) == ApplyBin(op, v, x)
  {
    hide Equal, Less, LessEq;
  }

  lemma ComparisonSame(op: Op, f: FieldType, x: Value, v: Value)
    requires ComparisonKept(op, f, x, v)
    ensures ApplyBin(op, x, TypedAs(f, ToStr(v))) == ApplyBin(op, x, v)
    ensures ApplyBin(op, TypedAs(f, ToStr(v)), x) == ApplyBin(op, v, x)
  {
    hide ApplyBin, SameEquality, SameOrder, EqualityKept, OrderKept, ToStr;
    var w := TypedAs(f, ToStr(v));
    if w != v {
      if op == Eq || op == Ne { EqualityKeptExact(f, x, v); } else { OrderKeptHolds(f, x, v); }
      SameApplied(op, x, v, w);
    }
  }

  lemma {:induction false} RetypedSame(e: Expr, ent: Entity, item: string, s: Scope)
    requires RetypeKept(e, ent, item, Read(s, item))
    ensures Truthy(Eval(TypeLiterals(e, ent, item), s)) <==> Truthy(Eval(e, s))
  {
    if e.Bin? {
      if e.bop == And || e.bop == Or {
        RetypedSame(e.l, ent, item, s);
        RetypedSame(e.r, ent, item, s);
      } else {
        SideSame(e.bop, e.l, e.r, ent, item, s);
        SideSame(e.bop, e.r, e.l, ent, item, s);
        hide ApplyBin, Retyped;
        assert ComparedField(e.l, ent, item).Some? && e.r.Lit? ==> Retyped(e.r, e.l, ent, item) == e.l by {
          NoColumn(e.r, e.l, ent, item);
        }
        assert ComparedField(e.r, ent, item).Some? && e.l.Lit? ==> Retyped(e.l, e.r, ent, item) == e.r by {
          NoColumn(e.l, e.r, ent, item);
        }
      }
    }
  }

  lemma NoColumn(column: Expr, e: Expr, ent: Entity, item: string)
    ensures ComparedField(column, ent, item).None? || !e.Lit? ==> Retyped(column, e, ent, item) == e
  {
  }

  lemma SideSame(op: Op, column: Expr, lit: Expr, ent: Entity, item: string, s: Scope)
    requires SideKept(op, column, lit, ent, item, Read(s, item))
    ensures ApplyBin(op, Eval(column, s), Eval(Retyped(column, lit, ent, item), s))
      == ApplyBin(op, Eval(column, s), Eval(lit, s))
    ensures ApplyBin(op, Eval(Retyped(column, lit, ent, item), s), Eval(column, s))
      == ApplyBin(op, Eval(lit, s), Eval(column, s))
  {
    hide ApplyBin, ComparisonKept;
    var f := ComparedField(column, ent, item);
    if f.Some? && lit.Lit? {
      assert Eval(column, s) == FieldOf(Read(s, item), column.field);
      ComparisonSame(op, f.value, FieldOf(Read(s, item), column.field), lit.v);
    }
  }

  // What a caller can check before splitting: everything folded is a value a literal stands for, and
  // on the stored rows every comparison of a pushed conjunct survives the retyping of its literal.
  predicate Splittable(ent: Entity, item: string, where: Option<Expr>, s: Scope, rows: seq<Value>) {
    && (where.Some? ==> forall row :: row in rows ==> FoldsTrue(where.value, item, s, row))
    && forall c, row :: c in Conjuncts(ent, item, where, s) && row in rows
                        && Pushable(TypeLiterals(c, ent, item), item) ==>
         RetypeKept(c, ent, item, row)
  }

  lemma ConjunctsMeanWanted(ent: Entity, item: string, where: Option<Expr>, s: Scope, row: Value)
    requires where.Some? ==> FoldsTrue(where.value, item, s, row)
    ensures AllHold(Conjuncts(ent, item, where, s), s[item := row]) <==> Wanted(ent, item, where, s[item := row])
  {
    var t := s[item := row];
    var soft := if ent.softDelete then [NotArchived(item)] else [];
    var rest := if where.None? then [] else SplitConj(FoldOuter(where.value, item, s));
    AllHoldConcat(soft, rest, t);
    if where.Some? {
      ConjunctsMeanAll(FoldOuter(where.value, item, s), t);
      FoldKeepsTruth(where.value, item, s, row);
    }
    assert ent.softDelete ==> soft[0] == NotArchived(item);
  }

  function Bound(s: Scope, item: string, row: Value): Scope {
    s[item := row]
  }

  // On the rows, the two halves hold together of exactly what every one of `cs` holds of.
  ghost predicate Halves(push: Option<Expr>, residual: Option<Expr>, cs: seq<Expr>, s: Scope, item: string,
          rows: seq<Value>) {
    && (push.Some? ==> Pushable(push.value, item))
    && forall row :: row in rows ==>
         (Holds(push, Bound(s, item, row)) && Holds(residual, Bound(s, item, row))
         <==> AllHold(cs, Bound(s, item, row)))
  }

  lemma HalvesStep(push: Option<Expr>, residual: Option<Expr>, cs: seq<Expr>, c: Expr, typed: Expr, s: Scope,
          item: string, rows: seq<Value>)
    requires Halves(push, residual, cs, s, item, rows)
    ensures Halves(push, AndExpr(residual, Some(c)), cs + [c], s, item, rows)
    ensures Pushable(typed, item)
      && (forall row :: row in rows ==>
        Truthy(Eval(typed, Bound(s, item, row))) == Truthy(Eval(c, Bound(s, item, row))))
      ==> Halves(AndExpr(push, Some(typed)), residual, cs + [c], s, item, rows)
  {
    hide Pushable;
    assert Pushable(typed, item) && push.Some? ==> Pushable(AndExpr(push, Some(typed)).value, item) by {
      PushableBoth(push, typed, item);
    }
    forall row
      ensures AllHold(cs + [c], Bound(s, item, row))
        <==> AllHold(cs, Bound(s, item, row)) && Holds(Some(c), Bound(s, item, row))
      ensures Holds(AndExpr(push, Some(typed)), Bound(s, item, row))
        <==> Holds(push, Bound(s, item, row)) && Holds(Some(typed), Bound(s, item, row))
      ensures Holds(AndExpr(residual, Some(c)), Bound(s, item, row))
        <==> Holds(residual, Bound(s, item, row)) && Holds(Some(c), Bound(s, item, row))
    {
      AllHoldConcat(cs, [c], Bound(s, item, row));
      assert [c][0] == c;
      AndMeansBoth(push, Some(typed), Bound(s, item, row));
      AndMeansBoth(residual, Some(c), Bound(s, item, row));
    }
  }

  lemma PushableBoth(push: Option<Expr>, typed: Expr, item: string)
    requires push.Some? ==> Pushable(push.value, item)
    ensures Pushable(typed, item) ==> Pushable(AndExpr(push, Some(typed)).value, item)
  {
  }

  // The store's half reads the row alone; the residual reads the whole scope. Together they hold of
  // exactly the rows that are wanted.
  ghost predicate SplitsExactly(ent: Entity, item: string, where: Option<Expr>, s: Scope, rows: seq<Value>,
          push: Option<Expr>, residual: Option<Expr>) {
    && (push.Some? ==> Pushable(push.value, item))
    && forall row :: row in rows ==>
         (Holds(push, Bound(map[], item, row)) && Holds(residual, Bound(s, item, row))
         <==> Wanted(ent, item, where, Bound(s, item, row)))
  }

  method SplitPredicate(ent: Entity, item: string, where: Option<Expr>, s: Scope, ghost rows: seq<Value>)
          returns (push: Option<Expr>, residual: Option<Expr>)
    requires Splittable(ent, item, where, s, rows)
    ensures SplitsExactly(ent, item, where, s, rows, push, residual)
    ensures var cs := Conjuncts(ent, item, where, s);
      && (push.None? <==> forall c :: c in cs ==> !Pushable(TypeLiterals(c, ent, item), item))
      && (residual.None? <==> forall c :: c in cs ==> Pushable(TypeLiterals(c, ent, item), item))
  {
    hide Halves, TypeLiterals, Pushable, AllHold, Conjuncts, SplitsExactly, FoldsTrue, RetypeKept;
    var conjuncts := Conjuncts(ent, item, where, s);
    push, residual := None, None;
    HalvesStart(s, item, rows);
    var i := 0;
    while i < |conjuncts|
      invariant 0 <= i <= |conjuncts|
      invariant Halves(push, residual, conjuncts[..i], s, item, rows)
      invariant push.None? <==> forall k :: 0 <= k < i ==> !Pushable(TypeLiterals(conjuncts[k], ent, item), item)
      invariant residual.None? <==> forall k :: 0 <= k < i ==> Pushable(TypeLiterals(conjuncts[k], ent, item), item)
    {
      var c := conjuncts[i];
      var typed := TypeLiterals(c, ent, item);
      if Pushable(typed, item) { RetypedOnRows(c, ent, item, s, rows); }
      HalvesStep(push, residual, conjuncts[..i], c, typed, s, item, rows);
      assert conjuncts[..i + 1] == conjuncts[..i] + [c];
      if Pushable(typed, item) {
        push := AndExpr(push, Some(typed));
      } else {
        residual := AndExpr(residual, Some(c));
      }
      i := i + 1;
    }
    assert conjuncts[..i] == conjuncts;
    HalvesExact(ent, item, where, s, rows, push, residual);
  }

  lemma RetypedOnRows(c: Expr, ent: Entity, item: string, s: Scope, rows: seq<Value>)
    requires forall row :: row in rows ==> RetypeKept(c, ent, item, row)
    ensures forall row :: row in rows ==>
      Truthy(Eval(TypeLiterals(c, ent, item), Bound(s, item, row))) == Truthy(Eval(c, Bound(s, item, row)))
  {
    forall row | row in rows
      ensures Truthy(Eval(TypeLiterals(c, ent, item), Bound(s, item, row))) == Truthy(Eval(c, Bound(s, item, row)))
    {
      RetypedSame(c, ent, item, Bound(s, item, row));
    }
  }

  lemma HalvesStart(s: Scope, item: string, rows: seq<Value>)
    ensures Halves(None, None, [], s, item, rows)
  {
  }

  lemma HalvesExact(ent: Entity, item: string, where: Option<Expr>, s: Scope, rows: seq<Value>, push: Option<Expr>,
          residual: Option<Expr>)
    requires where.Some? ==> forall row :: row in rows ==> FoldsTrue(where.value, item, s, row)
    requires Halves(push, residual, Conjuncts(ent, item, where, s), s, item, rows)
    ensures SplitsExactly(ent, item, where, s, rows, push, residual)
  {
    hide FoldsTrue, Conjuncts, AllHold, Wanted;
    forall row | row in rows
      ensures Holds(push, Bound(map[], item, row)) && Holds(residual, Bound(s, item, row))
        <==> Wanted(ent, item, where, Bound(s, item, row))
    {
      ConjunctsMeanWanted(ent, item, where, s, row);
      if push.Some? { PushableIsLocal(push.value, item, Bound(map[], item, row), Bound(s, item, row)); }
      assert Holds(push, Bound(s, item, row)) && Holds(residual, Bound(s, item, row))
        <==> AllHold(Conjuncts(ent, item, where, s), Bound(s, item, row));
    }
  }

  // A query's predicate with the read rule folded in holds of a row exactly when the rule holds of
  // that row and the predicate does.
  lemma ReadRuleFolded(ent: Entity, item: string, where: Option<Expr>, s: Scope)
    requires ent.readRule.Some? ==> NoCapture(ent.readRule.value, item)
    ensures Holds(ApplyReadPolicy(ent, item, where), s)
      <==> Holds(ent.readRule, s[ROW := Read(s, item)]) && Holds(where, s)
  {
    if ent.readRule.Some? { RenameKeepsMeaning(ent.readRule.value, item, s); }
  }

  // ---- where the source's split is not exact, and why the conditions are there ----

  // A nil folded in changes an answer: an int column holding 0 equals nil but not the empty text.
  lemma NilFoldLosesRow()
    ensures var where := Bin(Eq, Get(Ref("p"), "score"), Ref("viewer"));
      var t := Bound(map[], "p", VRec(map["score" := VInt(0)]));
      Truthy(Eval(where, t)) && !Truthy(Eval(FoldOuter(where, "p", map[]), t))
  {
    assert Itoa(0) == "0";
  }

  // Retyping a number to a money column's text turns an order of amounts into an order of texts.
  lemma MoneyOrderLosesRow()
    ensures var c := Bin(Gt, Get(Ref("p"), "price"), Lit(VInt(9)));
      var ent := Entity("Item", map["price" := MoneyField], false, None);
      var t := Bound(map[], "p", VRec(map["price" := VInt(10)]));
      Truthy(Eval(c, t)) && !Truthy(Eval(TypeLiterals(c, ent, "p"), t))
  {
    assert Digits(10) == Digits(1) + [DigitOf(0)] && Itoa(9) == "9" && Itoa(10) == "10";
    assert !LessText("9", "10");
  }

  // `exists(p in F where p.of == $row.by)`, or with the row variable renamed.
  function AuthorRule(row: string): Expr {
    Agg(Exists, "F", "p", Some(Bin(Eq, Get(Ref("p"), "of"), Get(Ref(row), "by"))), "")
  }

  function CaptureScope(x: string, y: string): Scope {
    map["F" := VList([VRec(map["of" := VText(x), "by" := VText(y)])]), "p" := VRec(map["by" := VText(x)])]
  }

  // A read rule whose inner aggregate binds the query's row variable is captured by the renaming:
  // the rule admits the row, and the renamed rule asks the inner row about itself.
  lemma CaptureChangesRule(x: string, y: string)
    requires x != y
    ensures var s := CaptureScope(x, y);
      && Truthy(Eval(AuthorRule(ROW), s[ROW := Read(s, "p")]))
      && RenameRowVar(AuthorRule(ROW), "p") == AuthorRule("p")
      && !Truthy(Eval(AuthorRule("p"), s))
  {
    var s := CaptureScope(x, y);
    CapturedRow(AuthorRule(ROW), x, y, s[ROW := Read(s, "p")]);
    CapturedRow(AuthorRule("p"), x, y, s);
  }

  lemma AuthorWhere(row: string, t: Scope, a: string, b: string)
    requires FieldOf(Read(t, "p"), "of") == VText(a) && FieldOf(Read(t, row), "by") == VText(b)
    ensures EvalWhere(AuthorRule(row), t) == VBool(a == b)
  {
    assert Eval(Get(Ref("p"), "of"), t) == VText(a) && Eval(Get(Ref(row), "by"), t) == VText(b);
  }

  lemma CapturedRow(rule: Expr, x: string, y: string, s: Scope)
    requires x != y && (rule == AuthorRule(ROW) || rule == AuthorRule("p"))
    requires Read(s, "F") == Read(CaptureScope(x, y), "F")
    requires rule == AuthorRule(ROW) ==> Read(s, ROW) == VRec(map["by" := VText(x)])
    ensures Truthy(Eval(rule, s)) <==> rule == AuthorRule(ROW)
  {
    var follow := VRec(map["of" := VText(x), "by" := VText(y)]);
    var row := if rule == AuthorRule(ROW) then ROW else "p";
    AuthorWhere(row, s["p" := follow], x, if row == ROW then x else y);
    hide EvalWhere;
    assert Matching(rule, [follow], s) == (if rule == AuthorRule(ROW) then [follow] else []) + Matching(rule, [], s);
  }
}
