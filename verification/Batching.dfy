// One grouped read instead of one aggregate per row: finding the value each row's predicate pins,
// and filing the grouped answers where the render looks them up (runtime/region.go,
// runtime/memstore.go).
module Batching {
  import opened Options
  import opened Division
  import opened TextNumbers
  import opened Expressions
  import opened LiteralTyping
  import opened PredicateSplit
  import opened StableSort
  import opened Paging

  // A store's reduction: the row count, or a reduction of one column.
  datatype Spec = Rows | Reduced(op: AggOp, field: string)

  // The predicate a store is asked about, its rows read through the item variable.
  type Question = Option<Expr>

  // ---- what an aggregate means ----

  function Selected(rows: seq<Value>, q: Question, item: string, tables: Scope): seq<Value> {
    Filter(Accepts(q, item, tables), rows)
  }

  // reduceAgg, or the count.
  function Reduction(spec: Spec, rows: seq<Value>): int {
    match spec
    case Rows => |rows|
    case Reduced(op, field) => ToInt(Reduce(op, rows, field))
  }

  predicate Records(rows: seq<Value>) {
    forall i :: 0 <= i < |rows| ==> rows[i].VRec?
  }

  lemma {:induction false} TotalSnoc(ns: seq<int>, n: int)
    ensures Total(ns + [n]) == Total(ns) + n
  {
    if ns == [] { assert [n][1..] == []; } else { TotalSnoc(ns[1..], n); assert (ns + [n])[1..] == ns[1..] + [n]; }
  }

  lemma {:induction false} LeastSnoc(ns: seq<int>, n: int)
    requires ns != []
    ensures Least(ns + [n]) == if n < Least(ns) then n else Least(ns)
  {
    assert (ns + [n])[1..] == ns[1..] + [n];
    if |ns| > 1 { LeastSnoc(ns[1..], n); } else { assert ns[1..] + [n] == [n]; }
  }

  lemma {:induction false} GreatestSnoc(ns: seq<int>, n: int)
    requires ns != []
    ensures Greatest(ns + [n]) == if n > Greatest(ns) then n else Greatest(ns)
  {
    assert (ns + [n])[1..] == ns[1..] + [n];
    if |ns| > 1 { GreatestSnoc(ns[1..], n); } else { assert ns[1..] + [n] == [n]; }
  }

  lemma {:induction false} ColumnSnoc(rows: seq<Value>, r: Value, field: string)
    ensures Column(rows + [r], field) == if r.VRec? then Column(rows, field) + [ToInt(FieldOf(r, field))]
      else Column(rows, field)
  {
    hide ToInt, FieldOf;
    if rows == [] {
      assert [r][1..] == [];
    } else {
      ColumnSnoc(rows[1..], r, field);
      assert (rows + [r])[1..] == rows[1..] + [r];
      var first, rest := if rows[0].VRec? then [ToInt(FieldOf(rows[0], field))] else [], Column(rows[1..], field);
      assert first + (rest + [ToInt(FieldOf(r, field))]) == (first + rest) + [ToInt(FieldOf(r, field))];
    }
  }

  // ---- what a reduction promises ----

  function Adds(r: Value, field: string): int {
    if r.VRec? then ToInt(FieldOf(r, field)) else 0
  }

  // The running sums of a column end in the total.
  ghost predicate Totals(rows: seq<Value>, field: string, total: int) {
    exists sums: seq<int> :: |sums| == |rows| + 1 && sums[0] == 0 && sums[|rows|] == total
      && forall i :: 0 <= i < |rows| ==> sums[i + 1] == sums[i] + Adds(rows[i], field)
  }

  function RecordsIn(rows: seq<Value>): nat {
    |Filter((r: Value) => r.VRec?, rows)|
  }

  ghost predicate SomeRecords(rows: seq<Value>, field: string, n: int) {
    exists r :: r in rows && r.VRec? && n == ToInt(FieldOf(r, field))
  }

  ghost predicate Averages(rows: seq<Value>, field: string, n: int) {
    exists total :: Totals(rows, field, total) && Truncates(total, RecordsIn(rows), n, total - RecordsIn(rows) * n)
  }

  // Counting counts the rows; the least is some record's and above no record's, the greatest dually; the
  // average times the count falls short of the total by less than the count, toward zero.
  ghost predicate Reduces(op: AggOp, rows: seq<Value>, field: string, v: Value) {
    if op.Count? then v == VInt(|rows|)
    else if op.Exists? then v == VBool(rows != [])
    else
      && v.VInt?
      && match op
         case Sum => Totals(rows, field, v.n)
         case Avg => Averages(rows, field, v.n)
         case Min =>
           && (if RecordsIn(rows) == 0 then v.n == 0 else SomeRecords(rows, field, v.n))
           && forall r :: r in rows && r.VRec? ==> v.n <= ToInt(FieldOf(r, field))
         case _ =>
           && (if RecordsIn(rows) == 0 then v.n == 0 else SomeRecords(rows, field, v.n))
           && forall r :: r in rows && r.VRec? ==> v.n >= ToInt(FieldOf(r, field))
  }

  lemma ReduceReduces(op: AggOp, rows: seq<Value>, field: string)
    ensures Reduces(op, rows, field, Reduce(op, rows, field))
  {
    var ns := Column(rows, field);
    assert ns == [] ==> Total(ns) == Least(ns) == Greatest(ns) == 0;
    hide ToInt, FieldOf, Filter, Least, Greatest, Total, Truncates, Quotient;
    ColumnMembers(rows, field);
    match op
    case Count =>
    case Exists =>
    case Sum => TotalTotals(rows, field);
    case Avg =>
      TotalTotals(rows, field);
      AverageRest(Total(ns), |ns|);
    case Min => if ns != [] { LeastIsLeast(ns); }
    case Max => if ns != [] { GreatestIsGreatest(ns); }
  }

  lemma AverageRest(total: int, n: nat)
    requires n == 0 ==> total == 0
    ensures Truncates(total, n, Quotient(total, n), total - n * Quotient(total, n))
  {
    QuotientTruncates(total, n);
    hide Quotient, Remainder;
  }

  // The column holds what the records contribute, nothing else.
  lemma {:induction false} ColumnMembers(rows: seq<Value>, field: string)
    ensures |Column(rows, field)| == RecordsIn(rows)
    ensures forall r :: r in rows && r.VRec? ==> ToInt(FieldOf(r, field)) in Column(rows, field)
    ensures forall n :: n in Column(rows, field) ==> exists r :: r in rows && r.VRec? && n == ToInt(FieldOf(r, field))
  {
    hide ToInt, FieldOf;
    if rows != [] {
      ColumnMembers(rows[1..], field);
      assert rows == [rows[0]] + rows[1..];
    }
  }

  lemma {:induction false} TotalTotals(rows: seq<Value>, field: string)
    ensures Totals(rows, field, Total(Column(rows, field)))
  {
    hide ToInt, FieldOf;
    if rows == [] {
      assert |[0]| == 1 && [0][0] == 0;
    } else {
      var most, r := rows[..|rows| - 1], rows[|rows| - 1];
      assert rows == most + [r];
      TotalTotals(most, field);
      ColumnSnoc(most, r, field);
      if r.VRec? { TotalSnoc(Column(most, field), ToInt(FieldOf(r, field))); }
      TotalsSnoc(most, r, field, Total(Column(most, field)));
    }
  }

  lemma TotalsSnoc(rows: seq<Value>, r: Value, field: string, total: int)
    requires Totals(rows, field, total)
    ensures Totals(rows + [r], field, total + Adds(r, field))
  {
    hide Adds;
    var sums :| |sums| == |rows| + 1 && sums[0] == 0 && sums[|rows|] == total
      && forall i :: 0 <= i < |rows| ==> sums[i + 1] == sums[i] + Adds(rows[i], field);
    var more := sums + [total + Adds(r, field)];
    assert |more| == |rows + [r]| + 1;
  }

  lemma {:induction false} LeastIsLeast(ns: seq<int>)
    requires ns != []
    ensures Least(ns) in ns && forall n :: n in ns ==> Least(ns) <= n
  {
    if |ns| > 1 { LeastIsLeast(ns[1..]); }
    assert ns == [ns[0]] + ns[1..];
  }

  lemma {:induction false} GreatestIsGreatest(ns: seq<int>)
    requires ns != []
    ensures Greatest(ns) in ns && forall n :: n in ns ==> Greatest(ns) >= n
  {
    if |ns| > 1 { GreatestIsGreatest(ns[1..]); }
    assert ns == [ns[0]] + ns[1..];
  }

  // The sum of two parts is the sum of their sums, and of one record its value.
  lemma SumOfParts(a: seq<Value>, b: seq<Value>, r: Value, field: string)
    ensures var sum := Reduced(Sum, field); Reduction(sum, a + b) == Reduction(sum, a) + Reduction(sum, b)
    ensures r.VRec? ==> Reduction(Reduced(Sum, field), [r]) == ToInt(FieldOf(r, field))
  {
    hide FieldOf;
    TotalOfParts(a, b, field);
    ColumnSnoc([], r, field);
    TotalSnoc([], ToInt(FieldOf(r, field)));
    assert [] + [r] == [r];
  }

  lemma {:induction false} TotalOfParts(a: seq<Value>, b: seq<Value>, field: string)
    ensures Total(Column(a + b, field)) == Total(Column(a, field)) + Total(Column(b, field))
  {
    hide ToInt, FieldOf;
    if b == [] {
      assert a + b == a;
    } else {
      var most, r := b[..|b| - 1], b[|b| - 1];
      assert b == most + [r] && a + b == (a + most) + [r];
      TotalOfParts(a, most, field);
      ColumnSnoc(most, r, field);
      ColumnSnoc(a + most, r, field);
      if r.VRec? {
        TotalSnoc(Column(most, field), ToInt(FieldOf(r, field)));
        TotalSnoc(Column(a + most, field), ToInt(FieldOf(r, field)));
      }
    }
  }

  // reduceAgg: one pass, four accumulators; a row that is no record is neither added nor counted.
  method ReduceAgg(op: AggOp, rows: seq<Value>, field: string) returns (v: Value)
    requires op.Sum? || op.Avg? || op.Min? || op.Max?
    ensures v == Reduce(op, rows, field) && Reduces(op, rows, field, v)
  {
    ReduceReduces(op, rows, field);
    hide Reduces;
    var total, n, lo, hi := 0, 0, 0, 0;
    var i := 0;
    while i < |rows|
      invariant 0 <= i <= |rows| && n == |Column(rows[..i], field)|
      invariant total == Total(Column(rows[..i], field))
      invariant lo == Least(Column(rows[..i], field)) && hi == Greatest(Column(rows[..i], field))
    {
      hide Column, Total, Least, Greatest, ToInt;
      assert rows[..i + 1] == rows[..i] + [rows[i]];
      ColumnSnoc(rows[..i], rows[i], field);
      if rows[i].VRec? {
        ghost var ns := Column(rows[..i], field);
        var k := ToInt(FieldOf(rows[i], field));
        TotalSnoc(ns, k);
        if n == 0 {
          lo, hi := k, k;
          OnlyOne(k);
          assert ns + [k] == [k];
        } else {
          LeastSnoc(ns, k);
          GreatestSnoc(ns, k);
          if k < lo { lo := k; }
          if k > hi { hi := k; }
        }
        total := total + k;
        n := n + 1;
      }
      i := i + 1;
    }
    assert rows[..i] == rows;
    match op {
      case Avg => v := VInt(if n == 0 then 0 else Quotient(total, n));
      case Min => v := VInt(lo);
      case Max => v := VInt(hi);
      case _ => v := VInt(total);
    }
  }

  lemma OnlyOne(k: int)
    ensures Least([k]) == k && Greatest([k]) == k
  {
  }

  // ---- the pinned column ----

  function PinnedValue(c: Expr, item: string, field: string): Option<Value> {
    if !c.Bin? || c.bop != Eq then None
    else if c.l == Get(Ref(item), field) && c.r.Lit? then Some(c.r.v)
    else if c.r == Get(Ref(item), field) && c.l.Lit? then Some(c.l.v)
    else None
  }

  // A column is pinned by an equality with a literal, written either way round.
  lemma LiteralPins(item: string, field: string, v: Value)
    ensures PinnedValue(Bin(Eq, Get(Ref(item), field), Lit(v)), item, field) == Some(v)
    ensures PinnedValue(Bin(Eq, Lit(v), Get(Ref(item), field)), item, field) == Some(v)
  {
  }

  lemma PinIsTextEquality(c: Expr, item: string, field: string, t: Scope)
    requires PinnedValue(c, item, field).Some?
    requires var x, v := FieldOf(Read(t, item), field), PinnedValue(c, item, field).value;
      Scalar(x) && Scalar(v) && ByText(x, v)
    ensures Truthy(Eval(c, t)) <==> ToStr(FieldOf(Read(t, item), field)) == ToStr(PinnedValue(c, item, field).value)
  {
    var x, v := FieldOf(Read(t, item), field), PinnedValue(c, item, field).value;
    ByTextExact(x, v);
    assert Eval(Get(Ref(item), field), t) == x;
    assert Truthy(Eval(c, t)) <==> Equal(x, v) || Equal(v, x);
  }

  // Null group values are the exception: a row with no value counts for a pinned 0 and is in no
  // group named "0".
  lemma NullIsNotGrouped(item: string, field: string)
    ensures var c := Bin(Eq, Get(Ref(item), field), Lit(VInt(0)));
      var t := Bound(map[], item, VRec(map[]));
      Truthy(Eval(c, t)) && ToStr(FieldOf(Read(t, item), field)) != ToStr(VInt(0))
  {
    assert Eval(Get(Ref(item), field), Bound(map[], item, VRec(map[]))) == VNil;
  }

  // `pin` is one conjunct of `pred` and `others` all the rest.
  ghost predicate Unpins(pred: Expr, pin: Expr, others: Question) {
    forall t: Scope :: Truthy(Eval(pred, t)) <==> Holds(others, t) && Truthy(Eval(pin, t))
  }

  function AndAll(cs: seq<Expr>): Question {
    if cs == [] then None else AndExpr(AndAll(cs[..|cs| - 1]), Some(cs[|cs| - 1]))
  }

  lemma {:induction false} AndAllMeansAll(cs: seq<Expr>, t: Scope)
    ensures Holds(AndAll(cs), t) <==> AllHold(cs, t)
  {
    if cs != [] {
      var most, last := cs[..|cs| - 1], cs[|cs| - 1];
      AndAllMeansAll(most, t);
      AndMeansBoth(AndAll(most), Some(last), t);
      AllHoldConcat(most, [last], t);
      assert cs == most + [last] && [last][0] == last;
    }
  }

  // The place of the first conjunct that pins the column; their number when none does.
  function PinAt(cs: seq<Expr>, item: string, field: string): (i: nat)
    ensures i <= |cs| && (i < |cs| ==> PinnedValue(cs[i], item, field).Some?)
    ensures forall k :: 0 <= k < i ==> PinnedValue(cs[k], item, field).None?
  {
    if cs == [] || PinnedValue(cs[0], item, field).Some? then 0 else 1 + PinAt(cs[1..], item, field)
  }

  // The first conjuncts but the pin.
  function Others(cs: seq<Expr>, at: nat, i: nat): seq<Expr>
    requires at <= |cs| && i <= |cs|
  {
    if at < i then cs[..at] + cs[at + 1..i] else cs[..i]
  }

  // The conjunct of `pred` that pins the column, and all the others together.
  function PinOf(pred: Expr, item: string, field: string): (pin: Option<Expr>)
    ensures pin.Some? ==> pin.value in SplitConj(pred) && PinnedValue(pin.value, item, field).Some?
  {
    var cs := SplitConj(pred);
    var i := PinAt(cs, item, field);
    if i < |cs| then Some(cs[i]) else None
  }

  function OthersOf(pred: Expr, item: string, field: string): Question {
    var cs := SplitConj(pred);
    var i := PinAt(cs, item, field);
    AndAll(Others(cs, i, |cs|))
  }

  // A predicate is its pin and the others.
  lemma PinAndOthers(pred: Expr, item: string, field: string)
    requires PinOf(pred, item, field).Some?
    ensures Unpins(pred, PinOf(pred, item, field).value, OthersOf(pred, item, field))
  {
    hide AndAll, PinnedValue;
    var cs := SplitConj(pred);
    var i := PinAt(cs, item, field);
    assert Others(cs, i, |cs|) == cs[..i] + cs[i + 1..];
    forall t: Scope
      ensures Truthy(Eval(pred, t)) <==> Holds(OthersOf(pred, item, field), t) && Truthy(Eval(cs[i], t))
    {
      ConjunctsMeanAll(pred, t);
      AndAllMeansAll(cs[..i] + cs[i + 1..], t);
      AllHoldConcat(cs[..i], cs[i + 1..], t);
      AllHoldConcat(cs[..i] + [cs[i]], cs[i + 1..], t);
      AllHoldConcat(cs[..i], [cs[i]], t);
      assert cs == cs[..i] + [cs[i]] + cs[i + 1..] && [cs[i]][0] == cs[i];
    }
  }

  lemma NoOthers(cs: seq<Expr>, at: nat)
    requires at <= |cs|
    ensures AndAll(Others(cs, at, 0)) == None
  {
  }

  lemma OthersStep(cs: seq<Expr>, at: nat, i: nat)
    requires at <= |cs| && i < |cs|
    ensures AndAll(Others(cs, at, i + 1)) == if i == at then AndAll(Others(cs, at, i))
      else AndExpr(AndAll(Others(cs, at, i)), Some(cs[i]))
  {
    hide AndExpr;
    var now := Others(cs, at, i);
    if i == at {
      assert Others(cs, at, i + 1) == now;
    } else {
      assert Others(cs, at, i + 1) == now + [cs[i]];
      assert (now + [cs[i]])[..|now|] == now;
    }
  }

  // The first conjunct that pins the column, and the rest.
  method Unpin(pred: Expr, item: string, field: string) returns (mine: Option<Value>, others: Question)
    ensures var pin := PinOf(pred, item, field); mine == if pin.Some? then PinnedValue(pin.value, item, field) else None
    ensures others == OthersOf(pred, item, field)
  {
    hide SplitConj, PinnedValue, AndAll, AndExpr, Others, PinAt;
    var cs := SplitConj(pred);
    ghost var at := PinAt(cs, item, field);
    mine, others := None, None;
    NoOthers(cs, at);
    var i := 0;
    while i < |cs|
      invariant 0 <= i <= |cs|
      invariant mine == if at < i then PinnedValue(cs[at], item, field) else None
      invariant others == AndAll(Others(cs, at, i))
    {
      OthersStep(cs, at, i);
      var v := PinnedValue(cs[i], item, field);
      if v.Some? && mine.None? {
        mine := v;
      } else {
        others := AndExpr(others, Some(cs[i]));
      }
      i := i + 1;
    }
  }

  // The predicates differ in one place, the value pinned to `field`.
  ghost predicate DifferInPin(preds: seq<Expr>, item: string, field: string) {
    forall i :: 0 <= i < |preds| ==>
      PinOf(preds[i], item, field).Some? && OthersOf(preds[i], item, field) == OthersOf(preds[0], item, field)
  }

  // What the rows' predicates share, and the value each pins, when they differ in nothing else.
  method SplitPinned(preds: seq<Expr>, item: string, field: string) returns (rest: Question, values: seq<Value>,
          ok: bool)
    ensures ok <==> DifferInPin(preds, item, field)
    ensures ok ==> |values| == |preds| && forall i :: 0 <= i < |preds| ==>
      PinOf(preds[i], item, field).Some? && OthersOf(preds[i], item, field) == rest
      && PinnedValue(PinOf(preds[i], item, field).value, item, field) == Some(values[i])
  {
    hide PinOf, OthersOf, PinnedValue;
    rest, values, ok := None, [], true;
    var i := 0;
    while i < |preds|
      invariant 0 <= i <= |preds| && |values| == i && (i > 0 ==> rest == OthersOf(preds[0], item, field))
      invariant forall k :: 0 <= k < i ==>
        PinOf(preds[k], item, field).Some? && OthersOf(preds[k], item, field) == rest
        && PinnedValue(PinOf(preds[k], item, field).value, item, field) == Some(values[k])
    {
      var mine, others := Unpin(preds[i], item, field);
      if mine.None? || (i > 0 && others != rest) { return None, [], false; }
      rest, values := others, values + [mine.value];
      i := i + 1;
    }
  }

  // ---- the grouped read ----

  function InGroup(field: string, key: string): Value -> bool {
    (r: Value) => r.VRec? && ToStr(FieldOf(r, field)) == key
  }

  function Group(rows: seq<Value>, field: string, key: string): seq<Value> {
    Filter(InGroup(field, key), rows)
  }

  method MatchingRows(rows: seq<Value>, q: Question, item: string, tables: Scope) returns (out: seq<Value>)
    ensures out == Selected(rows, q, item, tables)
  {
    out := FilterRows(rows, tables, Query(item, q, "", false, 0, Start));
  }

  predicate HasText(values: seq<Value>, key: string) {
    exists v :: v in values && ToStr(v) == key
  }

  // The groups an answer holds: every value asked about, present or not, or every group there is.
  predicate Answers(values: seq<Value>, rows: seq<Value>, field: string, key: string) {
    if values == [] then Group(rows, field, key) != [] else HasText(values, key)
  }

  method CountBy(rows: seq<Value>, q: Question, item: string, tables: Scope, field: string, values: seq<Value>) returns
          (out: map<string, int>)
    ensures forall k :: k in out <==> Answers(values, Selected(rows, q, item, tables), field, k)
    ensures forall k :: k in out ==> out[k] == |Group(Selected(rows, q, item, tables), field, k)|
  {
    hide Filter, ToStr, FieldOf, Holds, Group;
    var matching := MatchingRows(rows, q, item, tables);
    var want := set v | v in values :: ToStr(v);
    out := map k | k in want :: 0;
    GroupNone(field);
    var i := 0;
    while i < |matching|
      invariant 0 <= i <= |matching|
      invariant forall k :: k in out <==> k in want || (values == [] && Group(matching[..i], field, k) != [])
      invariant forall k :: k in out ==> out[k] == |Group(matching[..i], field, k)|
    {
      GroupStep(matching, i, field);
      if matching[i].VRec? {
        var key := ToStr(FieldOf(matching[i], field));
        if values == [] || key in want {
          out := out[key := (if key in out then out[key] else 0) + 1];
        }
      }
      i := i + 1;
    }
    assert matching[..i] == matching;
  }

  lemma GroupNone(field: string)
    ensures forall k :: Group([], field, k) == []
  {
  }

  function Grown(rows: seq<Value>, r: Value, field: string, key: string): seq<Value> {
    rows + if r.VRec? && ToStr(FieldOf(r, field)) == key then [r] else []
  }

  lemma GroupStep(rows: seq<Value>, i: nat, field: string)
    requires i < |rows|
    ensures forall k :: Group(rows[..i + 1], field, k) == Grown(Group(rows[..i], field, k), rows[i], field, k)
  {
    hide Filter;
    forall k ensures Group(rows[..i + 1], field, k) == Grown(Group(rows[..i], field, k), rows[i], field, k) {
      FilterStep(InGroup(field, k), rows, i);
    }
  }

  method GroupRows(matching: seq<Value>, field: string, all: bool, want: set<string>) returns (grouped: map<string,
          seq<Value>>)
    ensures forall k :: k in grouped <==> (all || k in want) && Group(matching, field, k) != []
    ensures forall k :: k in grouped ==> grouped[k] == Group(matching, field, k)
  {
    hide Filter, ToStr, FieldOf, Group;
    grouped := map[];
    GroupNone(field);
    var i := 0;
    while i < |matching|
      invariant 0 <= i <= |matching|
      invariant forall k :: k in grouped <==> (all || k in want) && Group(matching[..i], field, k) != []
      invariant forall k :: k in grouped ==> grouped[k] == Group(matching[..i], field, k)
    {
      GroupStep(matching, i, field);
      if matching[i].VRec? {
        var key := ToStr(FieldOf(matching[i], field));
        if all || key in want {
          grouped := grouped[key := (if key in grouped then grouped[key] else []) + [matching[i]]];
        }
      }
      i := i + 1;
    }
    assert matching[..i] == matching;
  }

  method AggregateBy(rows: seq<Value>, q: Question, item: string, tables: Scope, spec: Spec, field: string,
          values: seq<Value>) returns (out: map<string, int>)
    requires spec.Reduced?
    ensures forall k :: k in out <==> Answers(values, Selected(rows, q, item, tables), field, k)
    ensures forall k :: k in out ==> out[k] == Reduction(spec, Group(Selected(rows, q, item, tables), field, k))
  {
    hide Filter, ToStr, FieldOf, Holds, Reduction, Group;
    var matching := MatchingRows(rows, q, item, tables);
    var want := set v | v in values :: ToStr(v);
    var grouped := GroupRows(matching, field, values == [], want);
    EmptyReduction(spec);
    out := map k | k in want :: 0;
    var left := grouped.Keys;
    while left != {}
      invariant left <= grouped.Keys && out.Keys == want + grouped.Keys - (left - want)
      invariant forall k :: k in out && k !in left ==> out[k] == Reduction(spec, Group(matching, field, k))
    {
      var k :| k in left;
      left := left - {k};
      out := out[k := Reduction(spec, grouped[k])];
    }
  }

  // Every reduction of no rows is 0.
  lemma EmptyReduction(spec: Spec)
    ensures Reduction(spec, []) == 0
  {
  }

  // ---- the compiled question and the cache ----

  lemma {:induction false} AndAllPushable(cs: seq<Expr>, item: string)
    requires forall i :: 0 <= i < |cs| ==> Pushable(cs[i], item)
    ensures AndAll(cs).Some? ==> Pushable(AndAll(cs).value, item)
  {
    if cs != [] { AndAllPushable(cs[..|cs| - 1], item); }
  }

  // The question an aggregate asks the store, when every conjunct can be pushed.
  function AggQuery(ent: Entity, item: string, where: Option<Expr>, s: Scope): Option<Question> {
    var cs := Conjuncts(ent, item, where, s);
    var typed := seq(|cs|, i requires 0 <= i < |cs| => TypeLiterals(cs[i], ent, item));
    if forall i :: 0 <= i < |cs| ==> Pushable(typed[i], item) then Some(AndAll(typed)) else None
  }

  lemma AllRetyped(cs: seq<Expr>, typed: seq<Expr>, ent: Entity, item: string, t: Scope)
    requires |typed| == |cs| && forall i :: 0 <= i < |cs| ==>
      typed[i] == TypeLiterals(cs[i], ent, item) && RetypeKept(cs[i], ent, item, Read(t, item))
    ensures AllHold(typed, t) <==> AllHold(cs, t)
  {
    hide TypeLiterals, RetypeKept;
    forall i | 0 <= i < |cs| ensures Truthy(Eval(typed[i], t)) == Truthy(Eval(cs[i], t)) {
      RetypedSame(cs[i], ent, item, t);
    }
  }

  lemma AggQueryExact(ent: Entity, item: string, where: Option<Expr>, s: Scope, tables: Scope, row: Value)
    requires Splittable(ent, item, where, s, RowsOf(tables, ent.name)) && AggQuery(ent, item, where, s).Some?
    requires row in RowsOf(tables, ent.name)
    ensures Holds(AggQuery(ent, item, where, s).value, Bound(tables, item, row))
      <==> Wanted(ent, item, where, Bound(s, item, row))
  {
    var cs := Conjuncts(ent, item, where, s);
    var typed := seq(|cs|, i requires 0 <= i < |cs| => TypeLiterals(cs[i], ent, item));
    var t := Bound(s, item, row);
    assert AllHold(typed, t) <==> AllHold(cs, t) by {
      hide Conjuncts, Pushable, RetypeKept, TypeLiterals;
      forall i | 0 <= i < |cs| ensures RetypeKept(cs[i], ent, item, row) {
        assert cs[i] in cs && Pushable(typed[i], item) && typed[i] == TypeLiterals(cs[i], ent, item);
      }
      AllRetyped(cs, typed, ent, item, t);
    }
    hide TypeLiterals, Pushable;
    AndAllMeansAll(typed, t);
    ConjunctsMeanWanted(ent, item, where, s, row);
    AndAllPushable(typed, item);
    if AndAll(typed).Some? { PushableIsLocal(AndAll(typed).value, item, Bound(tables, item, row), t); }
  }

  // The rows an aggregate ranges over, seen from the scope it is written in.
  function Ranged(tables: Scope, ent: Entity, item: string, where: Option<Expr>, s: Scope): seq<Value> {
    Filter(Wants(ent, item, where, s), RowsOf(tables, ent.name))
  }

  // The in-memory rows of an entity, archived ones left out.
  function Live(ent: Entity): Value -> bool {
    r => ent.softDelete ==> !Truthy(FieldOf(r, "archived"))
  }

  // The scope holds what the store does, as the loader fills it.
  ghost predicate Mirrors(tables: Scope, ent: Entity, s: Scope) {
    && RowsOf(s, ent.name) == Filter(Live(ent), RowsOf(tables, ent.name))
    && (ent.softDelete ==> forall r :: r in RowsOf(tables, ent.name) ==> Fits(BoolField, FieldOf(r, "archived")))
  }

  lemma {:induction false} MatchingIsFilter(e: Expr, rows: seq<Value>, s: Scope)
    requires e.Agg?
    ensures Matching(e, rows, s) == Filter(Accepts(e.where, e.item, s), rows)
  {
    hide Eval;
    if rows == [] {
    } else if e.where.None? {
      MatchingIsFilter(e, rows[1..], s);
      assert rows == [rows[0]] + rows[1..];
    } else {
      MatchingIsFilter(e, rows[1..], s);
    }
  }

  lemma LiveIsNotArchived(item: string, s: Scope, row: Value)
    requires Fits(BoolField, FieldOf(row, "archived"))
    ensures Truthy(Eval(NotArchived(item), Bound(s, item, row))) <==> !Truthy(FieldOf(row, "archived"))
  {
    assert Eval(Get(Ref(item), "archived"), Bound(s, item, row)) == FieldOf(row, "archived");
  }

  // Evaluating the aggregate over the rows in scope is the fold the store is asked for.
  lemma AggIsFold(tables: Scope, ent: Entity, op: AggOp, column: string, item: string, where: Option<Expr>, s: Scope)
    requires Mirrors(tables, ent, s)
    ensures Eval(Agg(op, ent.name, item, where, column), s) == Reduce(op, Ranged(tables, ent, item, where, s), column)
  {
    hide Filter, Reduce, NotArchived, Fits;
    var e, rows := Agg(op, ent.name, item, where, column), RowsOf(tables, ent.name);
    MatchingIsFilter(e, RowsOf(s, ent.name), s);
    forall i | 0 <= i < |rows|
      ensures Wants(ent, item, where, s)(rows[i]) <==> Live(ent)(rows[i]) && Accepts(where, item, s)(rows[i])
    {
      if ent.softDelete { LiveIsNotArchived(item, s, rows[i]); }
    }
    FilterTwice(Live(ent), Accepts(where, item, s), Wants(ent, item, where, s), rows);
  }

  lemma AskedIsRanged(tables: Scope, ent: Entity, item: string, where: Option<Expr>, s: Scope)
    requires Splittable(ent, item, where, s, RowsOf(tables, ent.name)) && AggQuery(ent, item, where, s).Some?
    ensures Selected(RowsOf(tables, ent.name), AggQuery(ent, item, where, s).value, item, tables)
      == Ranged(tables, ent, item, where, s)
  {
    var q := AggQuery(ent, item, where, s).value;
    forall r | r in RowsOf(tables, ent.name) ensures Accepts(q, item, tables)(r) <==> Wants(ent, item, where, s)(r) {
      AggQueryExact(ent, item, where, s, tables, r);
    }
    SameFilter(Accepts(q, item, tables), Wants(ent, item, where, s), RowsOf(tables, ent.name));
  }

  lemma {:induction false} SameFilter(p: Value -> bool, q: Value -> bool, rows: seq<Value>)
    requires forall i :: 0 <= i < |rows| ==> (p(rows[i]) <==> q(rows[i]))
    ensures Filter(p, rows) == Filter(q, rows)
  {
    if rows != [] { SameFilter(p, q, rows[1..]); }
  }

  function Specs(op: AggOp, field: string): seq<Spec> {
    match op
    case Avg => [Reduced(Sum, field), Rows]
    case Sum => [Reduced(Sum, field)]
    case Min => [Reduced(Min, field)]
    case Max => [Reduced(Max, field)]
    case _ => [Rows]
  }

  datatype Key = Key(entity: string, item: string, q: Question, spec: Spec)

  function Answer(tables: Scope, k: Key): int {
    Reduction(k.spec, Selected(RowsOf(tables, k.entity), k.q, k.item, tables))
  }

  // Every cached slot holds what its own question would be answered with.
  ghost predicate Truthful(counts: map<Key, int>, tables: Scope) {
    forall k :: k in counts ==> counts[k] == Answer(tables, k)
  }

  function ItemField(e: Expr, item: string): seq<string> {
    if e.Get? && e.obj == Ref(item) then [e.field] else []
  }

  // The columns a predicate pins with an equality.
  function EqualityFields(cs: seq<Expr>, item: string): seq<string> {
    if cs == [] then []
    else
      (if cs[0].Bin? && cs[0].bop == Eq then ItemField(cs[0].l, item) + ItemField(cs[0].r, item) else [])
      + EqualityFields(cs[1..], item)
  }

  // Wherever the question pins a column to a literal, the stored values equal the literal exactly
  // when their texts are the same.
  ghost predicate PinsTyped(q: Question, item: string, rows: seq<Value>) {
    q.Some? ==> forall c, field :: c in SplitConj(q.value) && PinnedValue(c, item, field).Some? ==>
      TypedColumn(rows, field, PinnedValue(c, item, field).value)
  }

  ghost predicate TypedColumn(rows: seq<Value>, field: string, v: Value) {
    Scalar(v) && forall i :: 0 <= i < |rows| ==> Scalar(FieldOf(rows[i], field)) && ByText(FieldOf(rows[i], field), v)
  }

  // One row's group is the rows its own predicate selects.
  lemma PinnedGroup(rows: seq<Value>, pred: Expr, pin: Expr, rest: Question, item: string, field: string, v: Value,
          tables: Scope)
    requires Records(rows) && PinnedValue(pin, item, field) == Some(v) && Unpins(pred, pin, rest)
      && TypedColumn(rows, field, v)
    ensures Group(Selected(rows, rest, item, tables), field, ToStr(v)) == Selected(rows, Some(pred), item, tables)
  {
    var p, q, both := Accepts(rest, item, tables), InGroup(field, ToStr(v)), Accepts(Some(pred), item, tables);
    forall i | 0 <= i < |rows| ensures both(rows[i]) <==> p(rows[i]) && q(rows[i]) {
      var t := Bound(tables, item, rows[i]);
      PinIsTextEquality(pin, item, field, t);
      assert Truthy(Eval(pred, t)) <==> Holds(rest, t) && Truthy(Eval(pin, t));
    }
    FilterTwice(p, q, both, rows);
  }

  // Two rows that pin the same value ask the same question.
  method Distinct(values: seq<Value>) returns (out: seq<Value>)
    ensures values != [] ==> out != []
    ensures forall v :: v in values ==> HasText(out, ToStr(v))
    ensures forall v :: v in out ==> v in values
    ensures forall i, j :: 0 <= i < j < |out| ==> ToStr(out[i]) != ToStr(out[j])
  {
    out := [];
    var seen: set<string> := {};
    var i := 0;
    while i < |values|
      invariant 0 <= i <= |values| && (i > 0 ==> out != [])
      invariant forall k :: k in seen <==> HasText(out, k)
      invariant forall v :: v in out ==> v in values
      invariant forall v :: v in values[..i] ==> HasText(out, ToStr(v))
      invariant forall a, b :: 0 <= a < b < |out| ==> ToStr(out[a]) != ToStr(out[b])
    {
      hide ToStr;
      var k := ToStr(values[i]);
      ghost var was := out;
      assert values[..i + 1] == values[..i] + [values[i]];
      if k !in seen {
        seen := seen + {k};
        out := out + [values[i]];
        forall x ensures HasText(out, x) <==> HasText(was, x) || x == k { TextAdded(was, values[i], x); }
        forall a | 0 <= a < |was| ensures ToStr(was[a]) != k { assert was[a] in was; }
      }
      i := i + 1;
    }
    assert values[..i] == values;
  }

  lemma TextAdded(values: seq<Value>, v: Value, key: string)
    ensures HasText(values + [v], key) <==> HasText(values, key) || ToStr(v) == key
  {
    hide ToStr;
    assert forall x :: x in values + [v] <==> x in values || x == v;
  }

  // `preds` are the rows' own predicates, compiled.
  ghost predicate Compiles(ent: Entity, item: string, where: Option<Expr>, rowVar: string, outer: seq<Value>, s: Scope,
          preds: seq<Expr>) {
    |preds| == |outer|
    && forall k :: 0 <= k < |outer| ==> AggQuery(ent, item, where, Bound(s, rowVar, outer[k])) == Some(Some(preds[k]))
  }

  // Every row's predicate compiles, and they differ in nothing but the value each pins to some column.
  ghost predicate CanBatch(ent: Entity, item: string, where: Option<Expr>, rowVar: string, outer: seq<Value>, s: Scope)
    requires outer != []
  {
    exists preds, field :: Compiles(ent, item, where, rowVar, outer, s, preds) && DifferInPin(preds, item, field)
  }

  // The rows' compiled predicates are determined, and a column they pin is among those compared.
  lemma BatchDecided(ent: Entity, item: string, where: Option<Expr>, rowVar: string, outer: seq<Value>, s: Scope,
          preds: seq<Expr>)
    requires outer != [] && Compiles(ent, item, where, rowVar, outer, s, preds)
    ensures CanBatch(ent, item, where, rowVar, outer, s)
      <==> exists field :: field in EqualityFields(SplitConj(preds[0]), item) && DifferInPin(preds, item, field)
  {
    hide AggQuery, EqualityFields, SplitConj, DifferInPin;
    forall other | Compiles(ent, item, where, rowVar, outer, s, other) ensures other == preds {
      assert forall k :: 0 <= k < |outer| ==> Some(Some(other[k])) == Some(Some(preds[k]));
    }
    forall field | DifferInPin(preds, item, field) ensures field in EqualityFields(SplitConj(preds[0]), item) {
      PinIsCompared(preds, item, field);
    }
  }

  lemma PinIsCompared(preds: seq<Expr>, item: string, field: string)
    requires preds != [] && DifferInPin(preds, item, field)
    ensures field in EqualityFields(SplitConj(preds[0]), item)
  {
    hide OthersOf;
    ComparedHere(SplitConj(preds[0]), PinOf(preds[0], item, field).value, item, field);
  }

  lemma {:induction false} ComparedHere(cs: seq<Expr>, c: Expr, item: string, field: string)
    requires c in cs && PinnedValue(c, item, field).Some?
    ensures field in EqualityFields(cs, item)
  {
    if c != cs[0] { ComparedHere(cs[1..], c, item, field); }
  }

  // Every row's predicate, compiled as its own question would be; one that cannot be pushed stops it.
  method CompileRows(ent: Entity, item: string, where: Option<Expr>, rowVar: string, outer: seq<Value>, s: Scope)
          returns (ok: bool, preds: seq<Expr>)
    requires outer != []
    ensures ok ==> Compiles(ent, item, where, rowVar, outer, s, preds)
    ensures !ok ==> !CanBatch(ent, item, where, rowVar, outer, s)
  {
    hide AggQuery, EqualityFields, SplitConj, DifferInPin;
    preds := [];
    var i := 0;
    while i < |outer|
      invariant 0 <= i <= |outer| && |preds| == i
      invariant forall k :: 0 <= k < i ==>
        AggQuery(ent, item, where, Bound(s, rowVar, outer[k])) == Some(Some(preds[k]))
    {
      var q := AggQuery(ent, item, where, Bound(s, rowVar, outer[i]));
      if q.None? || q.value.None? { return false, []; }
      preds := preds + [q.value.value];
      i := i + 1;
    }
    ok := true;
  }

  // A reduction needs a number column; counting needs none.
  predicate Reducible(ent: Entity, op: AggOp, column: string) {
    op.Count? || op.Exists? || ColumnOf(ent, column) == Some(IntField) || ColumnOf(ent, column) == Some(MoneyField)
  }

  // One page's cache of answered questions.
  class Materializer {
    const tables: Scope
    var counts: map<Key, int>
    // How many rows the enclosing list renders: more than one keeps it from asking row by row.
    var fanout: nat

    constructor (store: Scope)
      ensures tables == store && Valid() && fanout == 0
    {
      tables, counts, fanout := store, map[], 0;
    }

    ghost predicate Valid()
      reads this
    {
      Truthful(counts, tables)
    }

    // File one grouped read under every row's own question.
    method FileGroup(ent: Entity, item: string, spec: Spec, field: string, rest: Question, values: seq<Value>,
            preds: seq<Expr>)
      requires Valid() && Records(RowsOf(tables, ent.name)) && |values| == |preds| > 0
      requires spec.Reduced? || spec.Rows?
      requires forall i :: 0 <= i < |preds| ==>
        PinOf(preds[i], item, field).Some?
          && PinnedValue(PinOf(preds[i], item, field).value, item, field) == Some(values[i])
        && OthersOf(preds[i], item, field) == rest && TypedColumn(RowsOf(tables, ent.name), field, values[i])
      modifies this`counts
      ensures Valid() && forall k :: k in old(counts) ==> k in counts
      ensures forall i :: 0 <= i < |preds| ==> Key(ent.name, item, Some(preds[i]), spec) in counts
    {
      hide ToStr, Reduction, Group, Selected, Unpins, TypedColumn, PinOf, OthersOf, PinnedValue;
      var rows := RowsOf(tables, ent.name);
      var asked := Distinct(values);
      var grouped;
      if spec.Rows? {
        grouped := CountBy(rows, rest, item, tables, field, asked);
        CountIsReduction(rows, rest, item, tables, field);
      } else {
        grouped := AggregateBy(rows, rest, item, tables, spec, field, asked);
      }
      forall k | 0 <= k < |values| ensures ToStr(values[k]) in grouped {
        assert values[k] in values;
        assert HasText(asked, ToStr(values[k]));
      }
      var i := 0;
      while i < |preds|
        invariant 0 <= i <= |preds| && Valid() && forall k :: k in old(counts) ==> k in counts
        invariant forall j :: 0 <= j < i ==> Key(ent.name, item, Some(preds[j]), spec) in counts
      {
        PinAndOthers(preds[i], item, field);
        PinnedGroup(rows, preds[i], PinOf(preds[i], item, field).value, rest, item, field, values[i], tables);
        counts := counts[Key(ent.name, item, Some(preds[i]), spec) := grouped[ToStr(values[i])]];
        i := i + 1;
      }
    }

    // Turn one aggregate's per-row questions into one grouped read, if they differ in one pinned value.
    method HoistAgg(ent: Entity, op: AggOp, column: string, item: string, where: Option<Expr>, rowVar: string,
            outer: seq<Value>, s: Scope) returns (hoisted: bool)
      requires Valid() && Records(RowsOf(tables, ent.name)) && outer != []
      requires forall i :: 0 <= i < |outer| ==> HoistReady(tables, ent, item, where, Bound(s, rowVar, outer[i]))
      modifies this`counts
      ensures Valid() && forall k :: k in old(counts) ==> k in counts
      ensures hoisted <==> CanBatch(ent, item, where, rowVar, outer, s)
      ensures hoisted ==> forall i, spec :: 0 <= i < |outer| && spec in Specs(op, column) ==>
        Asked(ent, item, where, Bound(s, rowVar, outer[i]), spec) in counts
    {
      hide PinsTyped, Conjuncts, Splittable, AggQuery, Truthful, CanBatch, DifferInPin, OthersOf, PinOf, PinnedValue,
           Unpins, TypedColumn, EqualityFields, SplitConj;
      var compiled, preds := CompileRows(ent, item, where, rowVar, outer, s);
      if !compiled { return false; }
      BatchDecided(ent, item, where, rowVar, outer, s, preds);
      var fields := EqualityFields(SplitConj(preds[0]), item);
      var i := 0;
      while i < |fields|
        invariant 0 <= i <= |fields| && Valid() && counts == old(counts)
        invariant forall j :: 0 <= j < i ==> !DifferInPin(preds, item, fields[j])
      {
        var rest, values, ok := SplitPinned(preds, item, fields[i]);
        if ok {
          forall k | 0 <= k < |preds| ensures TypedColumn(RowsOf(tables, ent.name), fields[i], values[k]) {
            PinTyped(preds[k], PinOf(preds[k], item, fields[i]).value, item, fields[i], RowsOf(tables, ent.name));
          }
          var specs := Specs(op, column);
          var j := 0;
          while j < |specs|
            invariant 0 <= j <= |specs| && Valid() && forall k :: k in old(counts) ==> k in counts
            invariant forall k, m :: 0 <= k < |preds| && 0 <= m < j ==>
              Key(ent.name, item, Some(preds[k]), specs[m]) in counts
          {
            FileGroup(ent, item, specs[j], fields[i], rest, values, preds);
            j := j + 1;
          }
          return true;
        }
        i := i + 1;
      }
      hoisted := false;
    }

    // One reduction, from the cache or, when that is not a request per row, from the store.
    method AnswerOne(ent: Entity, item: string, q: Question, spec: Spec) returns (n: Option<int>)
      requires Valid()
      modifies this`counts
      ensures Valid() && forall k :: k in old(counts) ==> k in counts
      ensures n.Some? ==> n.value == Answer(tables, Key(ent.name, item, q, spec))
      ensures n.None? <==> Key(ent.name, item, q, spec) !in old(counts) && fanout > 1
    {
      var key := Key(ent.name, item, q, spec);
      if key in counts { return Some(counts[key]); }
      if fanout > 1 { return None; }
      var matching := MatchingRows(RowsOf(tables, ent.name), q, item, tables);
      n := Some(Reduction(spec, matching));
      counts := counts[key := n.value];
    }

    // An aggregate answered by the store is what folding the rows its own predicate selects gives;
    // avg is composed of the sum and the count, the empty average included.
    method ResolveAgg(ent: Entity, op: AggOp, column: string, item: string, where: Option<Expr>, s: Scope)
            returns (v: Option<Value>)
      requires Valid() && Records(RowsOf(tables, ent.name)) && Splittable(ent, item, where, s, RowsOf(tables, ent.name))
      modifies this`counts
      ensures Valid()
      ensures v.Some? ==> v.value == Reduce(op, Ranged(tables, ent, item, where, s), column)
      ensures v.Some? ==> Reduces(op, Ranged(tables, ent, item, where, s), column, v.value)
      ensures v.Some? && Mirrors(tables, ent, s) ==> v.value == Eval(Agg(op, ent.name, item, where, column), s)
      ensures v.None? ==> fanout > 1 || AggQuery(ent, item, where, s).None? || !Reducible(ent, op, column)
      ensures v.None? && AggQuery(ent, item, where, s).Some? && Reducible(ent, op, column) ==>
        exists spec :: spec in Specs(op, column) && Asked(ent, item, where, s, spec) !in old(counts)
    {
      hide Splittable, Filter, AggQuery, Wants, Reduce, Reduces, Reduction, Ranged, Column, Mirrors, Eval;
      ReduceReduces(op, Ranged(tables, ent, item, where, s), column);
      if Mirrors(tables, ent, s) { AggIsFold(tables, ent, op, column, item, where, s); }
      var q := AggQuery(ent, item, where, s);
      if q.None? { return None; }
      if !Reducible(ent, op, column) { return None; }
      AskedIsRanged(tables, ent, item, where, s);
      RangedRecords(tables, ent, item, where, s);
      Composed(op, column, Ranged(tables, ent, item, where, s));
      match op {
        case Count =>
          assert Rows in Specs(op, column);
          var n := AnswerOne(ent, item, q.value, Rows);
          if n.None? { return None; }
          return Some(VInt(n.value));
        case Exists =>
          assert Rows in Specs(op, column);
          var n := AnswerOne(ent, item, q.value, Rows);
          if n.None? { return None; }
          return Some(VBool(n.value > 0));
        case Avg =>
          assert Reduced(Sum, column) in Specs(op, column) && Rows in Specs(op, column);
          var total := AnswerOne(ent, item, q.value, Reduced(Sum, column));
          if total.None? { return None; }
          var n := AnswerOne(ent, item, q.value, Rows);
          if n.None? { return None; }
          return Some(VInt(if n.value == 0 then 0 else Quotient(total.value, n.value)));
        case _ =>
          assert Reduced(op, column) in Specs(op, column);
          var n := AnswerOne(ent, item, q.value, Reduced(op, column));
          if n.None? { return None; }
          return Some(VInt(n.value));
      }
    }
  }

  // What a caller can check of one outer row before its aggregate is batched.
  ghost predicate HoistReady(tables: Scope, ent: Entity, item: string, where: Option<Expr>, s: Scope) {
    && Splittable(ent, item, where, s, RowsOf(tables, ent.name))
    && (AggQuery(ent, item, where, s).Some? ==>
      PinsTyped(AggQuery(ent, item, where, s).value, item, RowsOf(tables, ent.name)))
  }

  function Asked(ent: Entity, item: string, where: Option<Expr>, s: Scope, spec: Spec): Key {
    Key(ent.name, item, if AggQuery(ent, item, where, s).Some? then AggQuery(ent, item, where, s).value else None, spec)
  }

  // After a batch, each row's cached slot is the reduction that row's own predicate would give.
  lemma HoistedIsPerRow(counts: map<Key, int>, tables: Scope, ent: Entity, item: string, where: Option<Expr>, s: Scope,
          spec: Spec)
    requires Truthful(counts, tables) && Splittable(ent, item, where, s, RowsOf(tables, ent.name))
      && AggQuery(ent, item, where, s).Some?
    requires Asked(ent, item, where, s, spec) in counts
    ensures counts[Asked(ent, item, where, s, spec)] == Reduction(spec, Ranged(tables, ent, item, where, s))
  {
    AskedIsRanged(tables, ent, item, where, s);
  }

  lemma PinTyped(pred: Expr, pin: Expr, item: string, field: string, rows: seq<Value>)
    requires PinsTyped(Some(pred), item, rows) && pin in SplitConj(pred) && PinnedValue(pin, item, field).Some?
    ensures TypedColumn(rows, field, PinnedValue(pin, item, field).value)
  {
  }

  lemma CountIsReduction(rows: seq<Value>, q: Question, item: string, tables: Scope, field: string)
    ensures forall k :: |Group(Selected(rows, q, item, tables), field, k)|
                        == Reduction(Rows, Group(Selected(rows, q, item, tables), field, k))
  {
  }

  lemma RangedRecords(tables: Scope, ent: Entity, item: string, where: Option<Expr>, s: Scope)
    requires Records(RowsOf(tables, ent.name))
    ensures Records(Ranged(tables, ent, item, where, s))
  {
    var p, rows := Wants(ent, item, where, s), RowsOf(tables, ent.name);
    FilterMembers(p, rows);
    forall i | 0 <= i < |Filter(p, rows)| ensures Filter(p, rows)[i].VRec? { assert Filter(p, rows)[i] in rows; }
  }

  // How each aggregate is composed of the reductions a store answers.
  lemma Composed(op: AggOp, column: string, rows: seq<Value>)
    requires Records(rows)
    ensures Reduce(Count, rows, column) == VInt(Reduction(Rows, rows))
    ensures Reduce(Exists, rows, column) == VBool(Reduction(Rows, rows) > 0)
    ensures Reduce(Avg, rows, column) == VInt(
      if Reduction(Rows, rows) == 0 then 0 else Quotient(Reduction(Reduced(Sum, column), rows), Reduction(Rows, rows)))
    ensures op.Sum? || op.Min? || op.Max? ==> Reduce(op, rows, column) == VInt(Reduction(Reduced(op, column), rows))
  {
    ColumnOfRecords(rows, column);
  }

  lemma {:induction false} ColumnOfRecords(rows: seq<Value>, field: string)
    requires Records(rows)
    ensures |Column(rows, field)| == |rows|
  {
    if rows != [] { ColumnOfRecords(rows[1..], field); }
  }
}
