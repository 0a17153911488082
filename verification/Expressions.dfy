// The expression language a page's predicates are written in, and its evaluator (runtime/eval.go).
module Expressions {
  import opened Options
  import opened Division
  import opened TextOrder
  import opened TextNumbers

  datatype Value =
    | VNil
    | VBool(b: bool)
    | VInt(n: int)
    | VText(s: string)
    | VList(vs: seq<Value>)
    | VRec(fields: map<string, Value>)

  datatype Op = And | Or | Add | Sub | Mul | Div | Mod | Eq | Ne | Lt | Le | Gt | Ge | In

  datatype UnOp = Not | Neg

  datatype AggOp = Count | Exists | Sum | Avg | Min | Max

  datatype Expr =
    | Lit(v: Value)
    | ListOf(args: seq<Expr>)
    | Ref(name: string)
    | Get(obj: Expr, field: string)
    | Lookup(coll: string, key: Expr, field: string)
    | Agg(op: AggOp, coll: string, item: string, where: Option<Expr>, field: string)
    | Call(fn: string, args: seq<Expr>)
    | Bin(bop: Op, l: Expr, r: Expr)
    | Un(uop: UnOp, x: Expr)

  type Scope = map<string, Value>

  function Read(s: Scope, name: string): Value {
    if name in s then s[name] else VNil
  }

  // ---- total conversions ----

  predicate Truthy(v: Value) {
    match v
    case VNil => false
    case VBool(b) => b
    case VInt(n) => n != 0
    case VText(s) => s != ""
    case VList(vs) => vs != []
    case VRec(_) => true
  }

  function ToInt(v: Value): int {
    match v
    case VInt(n) => n
    case VBool(b) => if b then 1 else 0
    case VText(s) => Atoi(s)
    case _ => 0
  }

  function ToStr(v: Value): string {
    match v
    case VText(s) => s
    case VInt(n) => Itoa(n)
    case VBool(b) => if b then "true" else "false"
    case VList(vs) => Joined(vs)
    case _ => ""
  }

  function Joined(vs: seq<Value>): string {
    if vs == [] then ""
    else if |vs| == 1 then ToStr(vs[0])
    else ToStr(vs[0]) + "," + Joined(vs[1..])
  }

  predicate Equal(a: Value, b: Value) {
    if a.VList? then b.VList? && |a.vs| == |b.vs| && forall i :: 0 <= i < |a.vs| ==> Equal(a.vs[i], b.vs[i])
    else if a.VRec? then
      b.VRec? && a.fields.Keys == b.fields.Keys && forall k :: k in a.fields ==> Equal(a.fields[k], b.fields[k])
    else if b.VList? || b.VRec? then false
    else if a.VText? then a.s == ToStr(b)
    else if b.VText? then ToStr(a) == b.s
    else if a.VBool? then a.b == Truthy(b)
    else ToInt(a) == ToInt(b)
  }

  predicate Less(a: Value, b: Value) {
    if a.VText? || b.VText? then LessText(ToStr(a), ToStr(b)) else ToInt(a) < ToInt(b)
  }

  predicate LessEq(a: Value, b: Value) {
    if a.VText? || b.VText? then LessText(ToStr(a), ToStr(b)) || ToStr(a) == ToStr(b) else ToInt(a) <= ToInt(b)
  }

  function ApplyBin(op: Op, l: Value, r: Value): Value {
    match op
    case And => VBool(Truthy(l) && Truthy(r))
    case Or => VBool(Truthy(l) || Truthy(r))
    case Add =>
      if l.VList? && r.VList? then VList(l.vs + r.vs)
      else if l.VText? || r.VText? then VText(ToStr(l) + ToStr(r))
      else VInt(ToInt(l) + ToInt(r))
    case Sub => VInt(ToInt(l) - ToInt(r))
    case Mul => VInt(ToInt(l) * ToInt(r))
    case Div => VInt(Quotient(ToInt(l), ToInt(r)))
    case Mod => VInt(Remainder(ToInt(l), ToInt(r)))
    case Eq => VBool(Equal(l, r))
    case Ne => VBool(!Equal(l, r))
    case Lt => VBool(Less(l, r))
    case Le => VBool(LessEq(l, r))
    case Gt => VBool(Less(r, l))
    case Ge => VBool(LessEq(r, l))
    case In => VBool(r.VList? && exists i :: 0 <= i < |r.vs| && Equal(l, r.vs[i]))
  }

  function ApplyUn(op: UnOp, x: Value): Value {
    match op
    case Not => VBool(!Truthy(x))
    case Neg => VInt(-ToInt(x))
  }

  predicate OccursAt(t: string, p: string, i: int) {
    0 <= i <= |t| - |p| && t[i..i + |p|] == p
  }

  predicate Contains(t: string, p: string) {
    exists i :: 0 <= i <= |t| - |p| && OccursAt(t, p, i)
  }

  // Two of the pure builtins; the others are not part of this model.
  function Builtin(fn: string, args: seq<Value>): Value {
    if fn == "contains" && |args| == 2 then VBool(Contains(ToStr(args[0]), ToStr(args[1])))
    else if fn == "len" && |args| == 1 then
      match args[0]
      case VList(vs) => VInt(|vs|)
      case VText(s) => VInt(|s|)
      case _ => VInt(0)
    else VNil
  }

  // ---- evaluation ----

  function Eval(e: Expr, s: Scope): Value
    decreases e, 2, 0
  {
    match e
    case Lit(v) => v
    case ListOf(args) => VList(EvalAll(args, s))
    case Ref(name) => Read(s, name)
    case Get(obj, field) => FieldOf(Eval(obj, s), field)
    case Lookup(coll, key, field) => LookupRow(RowsOf(s, coll), Eval(key, s), field)
    case Agg(op, coll, item, where, field) => Reduce(op, Matching(e, RowsOf(s, coll), s), field)
    case Call(fn, args) => Builtin(fn, EvalAll(args, s))
    case Bin(op, l, r) =>
      if op == And && !Truthy(Eval(l, s)) then VBool(false)
      else if op == Or && Truthy(Eval(l, s)) then VBool(true)
      else if op == And || op == Or then VBool(Truthy(Eval(r, s)))
      else ApplyBin(op, Eval(l, s), Eval(r, s))
    case Un(op, x) => ApplyUn(op, Eval(x, s))
  }

  function EvalAll(es: seq<Expr>, s: Scope): (vs: seq<Value>)
    ensures |vs| == |es|
    decreases es, 0
  {
    if es == [] then [] else [Eval(es[0], s)] + EvalAll(es[1..], s)
  }

  // The rows of an aggregate's collection its predicate accepts, each bound to its item variable.
  function Matching(e: Expr, rows: seq<Value>, s: Scope): seq<Value>
    requires e.Agg?
    decreases e, 1, |rows|
  {
    if e.where.None? then rows
    else if rows == [] then []
    else
      (if Truthy(EvalWhere(e, s[e.item := rows[0]])) then [rows[0]] else []) + Matching(e, rows[1..], s)
  }

  function EvalWhere(e: Expr, s: Scope): Value
    requires e.Agg? && e.where.Some?
    decreases e, 0
  {
    Eval(e.where.value, s)
  }

  function RowsOf(s: Scope, coll: string): seq<Value> {
    var v := Read(s, coll);
    if v.VList? then v.vs else []
  }

  function FieldOf(v: Value, field: string): Value {
    if v.VRec? && field in v.fields then v.fields[field] else VNil
  }

  // The first row with this id: the row itself, or one of its fields.
  function LookupRow(rows: seq<Value>, key: Value, field: string): Value {
    if rows == [] then VNil
    else if rows[0].VRec? && Equal(FieldOf(rows[0], "id"), key) then
      if field == "" then rows[0] else FieldOf(rows[0], field)
    else LookupRow(rows[1..], key, field)
  }

  // What one row contributes to a reduction; a row that is no record contributes nothing.
  function Column(rows: seq<Value>, field: string): seq<int> {
    if rows == [] then []
    else (if rows[0].VRec? then [ToInt(FieldOf(rows[0], field))] else []) + Column(rows[1..], field)
  }

  function Total(ns: seq<int>): int {
    if ns == [] then 0 else ns[0] + Total(ns[1..])
  }

  function Least(ns: seq<int>): int {
    if ns == [] then 0
    else if |ns| == 1 then ns[0]
    else var m := Least(ns[1..]); if ns[0] < m then ns[0] else m
  }

  function Greatest(ns: seq<int>): int {
    if ns == [] then 0
    else if |ns| == 1 then ns[0]
    else var m := Greatest(ns[1..]); if ns[0] > m then ns[0] else m
  }

  // Every reduction of no rows is 0; avg is integer division by the rows that contribute.
  function Reduce(op: AggOp, rows: seq<Value>, field: string): Value {
    match op
    case Count => VInt(|rows|)
    case Exists => VBool(|rows| > 0)
    case Sum => VInt(Total(Column(rows, field)))
    case Avg => VInt(Quotient(Total(Column(rows, field)), |Column(rows, field)|))
    case Min => VInt(Least(Column(rows, field)))
    case Max => VInt(Greatest(Column(rows, field)))
  }
}
