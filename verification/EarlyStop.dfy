// A capped or existential aggregate stops testing rows once its answer is settled (runtime/eval.go).
module EarlyStop {
  import opened Options
  import opened Expressions
  import opened PredicateSplit
  import opened StableSort
  import opened TextOrder
  import opened Paging

  function FieldBefore(field: string, desc: bool): (Value, Value) -> bool {
    (a: Value, b: Value) =>
      if desc then LessVal(FieldOf(b, field), FieldOf(a, field)) else LessVal(FieldOf(a, field), FieldOf(b, field))
  }

  // sortRows: no order leaves the rows as they are.
  function SortRows(rows: seq<Value>, order: string, desc: bool): seq<Value> {
    if order == "" then rows else Sort(FieldBefore(order, desc), rows)
  }

  // A cap below zero is no cap.
  function CappedAt(limit: Option<int>, rows: seq<Value>): seq<Value> {
    if limit.None? || limit.value < 0 then rows else Take(limit.value, rows)
  }

  // What the list means: filter everything, sort, cap.
  function Listed(rows: seq<Value>, item: string, where: Option<Expr>, order: string, desc: bool, limit: Option<int>,
          s: Scope): seq<Value> {
    CappedAt(limit, SortRows(Filter(Accepts(where, item, s), rows), order, desc))
  }

  // Every row is a record with a number in the column, or every row is one with a text.
  predicate OneKind(rows: seq<Value>, field: string) {
    (forall r <- rows :: r.VRec? && FieldOf(r, field).VInt?)
      || (forall r <- rows :: r.VRec? && FieldOf(r, field).VText?)
  }

  // The rows in answer order, when the order column's values compare consistently.
  method SortedForEarlyStop(rows: seq<Value>, order: string, desc: bool) returns (sorted: Option<seq<Value>>)
    ensures sorted.Some? <==> order == "" || OneKind(rows, order)
    ensures sorted.Some? ==>
      sorted.value == SortRows(rows, order, desc) && (order == "" || WeakOrder(FieldBefore(order, desc), rows))
  {
    if order == "" { return Some(rows); }
    var nums, texts := 0, 0;
    var i := 0;
    while i < |rows|
      invariant 0 <= i <= |rows| && nums >= 0 && texts >= 0
      invariant nums == 0 <==> forall k :: 0 <= k < i ==> rows[k].VRec? && FieldOf(rows[k], order).VText?
      invariant texts == 0 <==> forall k :: 0 <= k < i ==> rows[k].VRec? && FieldOf(rows[k], order).VInt?
    {
      if !rows[i].VRec? { return None; }
      match FieldOf(rows[i], order) {
        case VInt(_) => nums := nums + 1;
        case VText(_) => texts := texts + 1;
        case _ => return None;
      }
      i := i + 1;
    }
    if nums > 0 && texts > 0 { return None; }
    assert Uniform(set r | r in rows :: ColumnAt(order)(r));
    FieldOrderIsWeak(order, desc, rows);
    sorted := Some(SortRows(rows, order, desc));
  }

  function ColumnAt(field: string): Value -> Value {
    (r: Value) => FieldOf(r, field)
  }

  lemma FieldByKey(field: string, desc: bool)
    ensures ByKey(FieldBefore(field, desc), ColumnAt(field), desc)
  {
    hide LessVal;
  }

  lemma FieldOrderIsWeak(field: string, desc: bool, rows: seq<Value>)
    requires Uniform(set r | r in rows :: ColumnAt(field)(r))
    ensures WeakOrder(FieldBefore(field, desc), rows)
  {
    FieldByKey(field, desc);
    KeyOrderIsWeak(FieldBefore(field, desc), ColumnAt(field), desc, rows);
  }

  // Where the column's values compare consistently a list rises in them, or falls, and rows equal there
  // stand as they stood in the collection; with no order all of them do.
  ghost predicate InAnswerOrder(rows: seq<Value>, order: string, desc: bool, out: seq<Value>) {
    if order == "" then forall ties :: Pairwise(ties, rows) ==> Pairwise(ties, out)
    else
      Uniform(set r | r in rows :: ColumnAt(order)(r)) ==>
        forall ties :: Pairwise(ties, rows) ==> KeyArranged(ColumnAt(order), desc, ties, out)
  }

  lemma ListedInOrder(rows: seq<Value>, item: string, where: Option<Expr>, order: string, desc: bool,
          limit: Option<int>, s: Scope)
    ensures InAnswerOrder(rows, order, desc, Listed(rows, item, where, order, desc, limit, s))
  {
    hide Sort, Filter, Uniform, KeyArranged, ColumnAt, ByKey, FieldBefore, Pairwise;
    var p := Accepts(where, item, s);
    var kept := Filter(p, rows);
    FilterMembers(p, rows);
    forall ties | Pairwise(ties, rows)
      ensures Pairwise(ties, kept) && Pairwise(ties, CappedAt(limit, kept))
    {
      KeptStand(p, ties, rows, limit);
    }
    if order != "" && Uniform(set r | r in rows :: ColumnAt(order)(r)) {
      FieldByKey(order, desc);
      UniformKeys(ColumnAt(order), rows, kept);
      forall ties | Pairwise(ties, rows)
        ensures KeyArranged(ColumnAt(order), desc, ties, Listed(rows, item, where, order, desc, limit, s))
      {
        KeySortArranges(FieldBefore(order, desc), ColumnAt(order), desc, ties, kept);
        CappedKeys(ColumnAt(order), desc, ties, limit, SortRows(kept, order, desc));
      }
    }
  }

  lemma KeptStand(p: Value -> bool, ties: (Value, Value) -> bool, rows: seq<Value>, limit: Option<int>)
    requires Pairwise(ties, rows)
    ensures Pairwise(ties, Filter(p, rows)) && Pairwise(ties, CappedAt(limit, Filter(p, rows)))
  {
    hide Filter;
    PairwiseFilter(p, ties, (x: Value, y: Value) => p(x) && p(y) ==> ties(x, y), rows);
  }

  lemma CappedKeys(key: Value -> Value, desc: bool, ties: (Value, Value) -> bool, limit: Option<int>, rows: seq<Value>)
    requires KeyArranged(key, desc, ties, rows)
    ensures KeyArranged(key, desc, ties, CappedAt(limit, rows))
  {
    hide KeyRises;
  }

  // Keep rows in the order given until enough are kept; below zero is never enough.
  method KeepSome(rows: seq<Value>, item: string, where: Option<Expr>, need: int, s: Scope) returns (kept: seq<Value>)
    ensures kept == if need < 0 then Filter(Accepts(where, item, s), rows)
      else Take(need, Filter(Accepts(where, item, s), rows))
  {
    hide Filter, Holds;
    var p := Accepts(where, item, s);
    kept := [];
    var i := 0;
    while i < |rows| && (need < 0 || |kept| < need)
      invariant 0 <= i <= |rows| && kept == Filter(p, rows[..i]) && (need >= 0 ==> |kept| <= need)
    {
      FilterStep(p, rows, i);
      if Holds(where, Bound(s, item, rows[i])) {
        kept := kept + [rows[i]];
      }
      i := i + 1;
    }
    FilterSplit(p, rows, i);
    assert i == |rows| ==> rows[..i] == rows;
  }

  // A filtered list: candidates are sorted first and testing stops at the cap when the order allows
  // it, else everything is filtered, sorted and capped. The answer is the same.
  method EvalList(rows: seq<Value>, item: string, where: Option<Expr>, order: string, desc: bool, limit: Option<int>,
          s: Scope) returns (out: seq<Value>)
    ensures out == Listed(rows, item, where, order, desc, limit, s)
    ensures InAnswerOrder(rows, order, desc, out)
  {
    hide InAnswerOrder;
    ListedInOrder(rows, item, where, order, desc, limit, s);
    var p := Accepts(where, item, s);
    if where.Some? && limit.Some? && limit.value >= 0 {
      var sorted := SortedForEarlyStop(rows, order, desc);
      if sorted.Some? {
        out := KeepSome(sorted.value, item, where, limit.value, s);
        if order != "" { SortCommutesWithFilter(FieldBefore(order, desc), p, rows); }
        return;
      }
    }
    var kept := KeepSome(rows, item, where, -1, s);
    out := SortRows(kept, order, desc);
    if limit.Some? && limit.value >= 0 && |out| > limit.value {
      out := out[..limit.value];
    }
  }

  // `exists` asks for one row and agrees with testing them all.
  method EvalExists(rows: seq<Value>, item: string, where: Expr, s: Scope) returns (found: bool)
    ensures found <==> exists r :: r in rows && Holds(Some(where), Bound(s, item, r))
  {
    var kept := KeepSome(rows, item, Some(where), 1, s);
    FilterMembers(Accepts(Some(where), item, s), rows);
    found := |kept| > 0;
    if found {
      assert kept[0] in Filter(Accepts(Some(where), item, s), rows);
    }
  }
}
