// Reading a list a page at a time: the keyset query and the loop that follows its cursor
// (runtime/memstore.go, runtime/region.go).
module Paging {
  import opened Options
  import opened TextOrder
  import opened TextNumbers
  import opened Expressions
  import opened PredicateSplit
  import opened StableSort

  const DEFAULT_PAGE := 50
  const LIST_PAGE_SIZE := 2000

  // ---- the order of rows ----

  function Id(r: Value): int {
    ToInt(FieldOf(r, "id"))
  }

  predicate LessVal(a: Value, b: Value) {
    if a.VInt? && b.VInt? then a.n < b.n else LessText(ToStr(a), ToStr(b))
  }

  predicate EqualVals(a: Value, b: Value) {
    ToStr(a) == ToStr(b) && (LessVal(a, b) <==> LessVal(b, a))
  }

  predicate Ascending(order: string, a: Value, b: Value) {
    if order == "" || EqualVals(FieldOf(a, order), FieldOf(b, order)) then Id(a) < Id(b)
    else LessVal(FieldOf(a, order), FieldOf(b, order))
  }

  function Before(order: string, desc: bool): (Value, Value) -> bool {
    (a: Value, b: Value) => if desc then !Ascending(order, a, b) else Ascending(order, a, b)
  }

  // A column's values compare consistently: no numbers, or nothing but numbers and blanks.
  ghost predicate Uniform(vs: set<Value>) {
    (forall v :: v in vs ==> !v.VInt?) || (forall v :: v in vs ==> v.VInt? || ToStr(v) == "")
  }

  ghost predicate Comparable(order: string, rows: seq<Value>) {
    order == "" || Uniform(set r | r in rows :: FieldOf(r, order))
  }

  ghost predicate UniqueIds(rows: seq<Value>) {
    forall i, j :: 0 <= i < j < |rows| ==> Id(rows[i]) != Id(rows[j])
  }

  lemma ValuesOrdered(a: Value, b: Value)
    requires Uniform({a, b})
    ensures EqualVals(a, b) <==> ToStr(a) == ToStr(b)
    ensures EqualVals(a, b) <==> !LessVal(a, b) && !LessVal(b, a)
    ensures !(LessVal(a, b) && LessVal(b, a))
  {
    assert a in {a, b} && b in {a, b};
    LessTextAsymmetric(ToStr(a), ToStr(b));
    LessTextTotal(ToStr(a), ToStr(b));
    if a.VInt? && b.VInt? { ItoaInjective(a.n, b.n); }
  }

  lemma ValuesTransitive(a: Value, b: Value, c: Value)
    requires Uniform({a, b, c}) && LessVal(a, b) && LessVal(b, c)
    ensures LessVal(a, c)
  {
    assert a in {a, b, c} && b in {a, b, c} && c in {a, b, c};
    if !(a.VInt? && b.VInt? && c.VInt?) {
      if !a.VInt? && !b.VInt? && !c.VInt? { LessTextTransitive(ToStr(a), ToStr(b), ToStr(c)); }
    }
  }

  // Rows come in one strict order: by the order column, then by id.
  lemma RowsTotal(order: string, rows: seq<Value>, x: Value, y: Value)
    requires UniqueIds(rows) && Comparable(order, rows) && x in rows && y in rows
    ensures !(Ascending(order, x, y) && Ascending(order, y, x))
    ensures Ascending(order, x, y) || Ascending(order, y, x) || x == y
  {
    if Id(x) == Id(y) {
      var i :| 0 <= i < |rows| && rows[i] == x;
      var j :| 0 <= j < |rows| && rows[j] == y;
      assert i == j;
    }
    if order != "" { ValuesOrdered(FieldOf(x, order), FieldOf(y, order)); }
  }

  lemma RowsTransitive(order: string, rows: seq<Value>, x: Value, y: Value, z: Value)
    requires Comparable(order, rows) && x in rows && y in rows && z in rows
    requires Ascending(order, x, y) && Ascending(order, y, z)
    ensures Ascending(order, x, z)
  {
    if order != "" {
      var a, b, c := FieldOf(x, order), FieldOf(y, order), FieldOf(z, order);
      assert Uniform({a, b, c});
      ValuesOrdered(a, b);
      ValuesOrdered(b, c);
      ValuesOrdered(a, c);
      if LessVal(a, b) && LessVal(b, c) { ValuesTransitive(a, b, c); }
      if EqualVals(a, b) { SameTextSameOrder(a, b, c); }
      if EqualVals(b, c) { SameTextSameOrder(b, c, a); }
    }
  }

  lemma SameTextSameOrder(a: Value, b: Value, c: Value)
    requires Uniform({a, b, c}) && ToStr(a) == ToStr(b)
    ensures LessVal(a, c) <==> LessVal(b, c)
    ensures LessVal(c, a) <==> LessVal(c, b)
  {
    assert a in {a, b, c} && b in {a, b, c} && c in {a, b, c};
    if a.VInt? && b.VInt? { ItoaInjective(a.n, b.n); }
  }

  // The comparator is a strict weak order on any rows with distinct ids, descending too.
  lemma BeforeIsWeakOrder(order: string, desc: bool, rows: seq<Value>)
    requires UniqueIds(rows) && Comparable(order, rows)
    ensures WeakOrder(Before(order, desc), rows)
  {
    var less := Before(order, desc);
    forall x, y | x in rows && y in rows && less(x, y) && less(y, x) ensures x == y {
      RowsTotal(order, rows, x, y);
    }
    forall x, y, z | x in rows && y in rows && z in rows && less(x, z) ensures less(x, y) || less(y, z) {
      RowsTotal(order, rows, x, y);
      RowsTotal(order, rows, y, z);
      RowsTotal(order, rows, x, z);
      if Ascending(order, x, y) && Ascending(order, y, z) { RowsTransitive(order, rows, x, y, z); }
      if Ascending(order, y, x) && Ascending(order, z, y) { RowsTransitive(order, rows, z, y, x); }
    }
  }

  // Two numbers compare as numbers and two texts by their first difference.
  lemma LessValExact(a: Value, b: Value)
    ensures a.VInt? && b.VInt? ==> (LessVal(a, b) <==> a.n < b.n)
    ensures !(a.VInt? && b.VInt?) ==> (LessVal(a, b) <==> FirstDifferenceLess(ToStr(a), ToStr(b)))
  {
    LessTextExact(ToStr(a), ToStr(b));
  }

  // The order readers are promised, lower first: by id, or by the column's numbers or texts and rows
  // equal there by id.
  ghost predicate Lower(order: string, a: Value, b: Value) {
    var x, y := FieldOf(a, order), FieldOf(b, order);
    if order == "" then Id(a) < Id(b)
    else if x.VInt? && y.VInt? then x.n < y.n || (x.n == y.n && Id(a) < Id(b))
    else if x.VText? && y.VText? then FirstDifferenceLess(x.s, y.s) || (x.s == y.s && Id(a) < Id(b))
    else FirstDifferenceLess(ToStr(x), ToStr(y)) || (ToStr(x) == ToStr(y) && Id(a) < Id(b))
  }

  // The rows rise in that order, or all of it backwards.
  ghost predicate Arranged(order: string, desc: bool, rows: seq<Value>) {
    forall i, j :: 0 <= i < j < |rows| ==>
      if desc then Lower(order, rows[j], rows[i]) else Lower(order, rows[i], rows[j])
  }

  lemma AscendingIsLower(order: string, a: Value, b: Value)
    requires order == "" || Uniform({FieldOf(a, order), FieldOf(b, order)})
    ensures Ascending(order, a, b) <==> Lower(order, a, b)
  {
    if order != "" {
      var x, y := FieldOf(a, order), FieldOf(b, order);
      ValuesOrdered(x, y);
      LessValExact(x, y);
      if x.VInt? && y.VInt? { ItoaInjective(x.n, y.n); }
    }
  }

  // Sorting arranges the rows, whatever order they came in.
  lemma SortArranges(order: string, desc: bool, rows: seq<Value>)
    requires UniqueIds(rows) && Comparable(order, rows)
    ensures Arranged(order, desc, Sort(Before(order, desc), rows))
  {
    hide Sort, WeakOrder;
    var less := Before(order, desc);
    var s := Sort(less, rows);
    BeforeIsWeakOrder(order, desc, rows);
    SortOrdered(less, rows);
    SameMembers(s, rows);
    SortedIds(less, rows);
    forall i, j | 0 <= i < j < |s|
      ensures if desc then Lower(order, s[j], s[i]) else Lower(order, s[i], s[j])
    {
      var a, b := s[i], s[j];
      assert a in rows && b in rows && Id(a) != Id(b);
      Placed(order, desc, rows, a, b);
    }
  }

  lemma Placed(order: string, desc: bool, rows: seq<Value>, a: Value, b: Value)
    requires UniqueIds(rows) && Comparable(order, rows) && a in rows && b in rows && Id(a) != Id(b)
    requires !Before(order, desc)(b, a)
    ensures if desc then Lower(order, b, a) else Lower(order, a, b)
  {
    RowsTotal(order, rows, a, b);
    AscendingIsLower(order, a, b);
    AscendingIsLower(order, b, a);
  }

  // ---- an order by a key ----

  // The first key is not above the second.
  ghost predicate KeyRises(a: Value, b: Value) {
    if a.VInt? && b.VInt? then a.n <= b.n else !FirstDifferenceLess(ToStr(b), ToStr(a))
  }

  // Keys rise, or fall, and rows with equal keys stand as `ties` has them.
  ghost predicate KeyArranged(key: Value -> Value, desc: bool, ties: (Value, Value) -> bool, rows: seq<Value>) {
    forall i, j :: 0 <= i < j < |rows| ==>
      && (if desc then KeyRises(key(rows[j]), key(rows[i])) else KeyRises(key(rows[i]), key(rows[j])))
      && (key(rows[i]) == key(rows[j]) ==> ties(rows[i], rows[j]))
  }

  ghost predicate ByKey(less: (Value, Value) -> bool, key: Value -> Value, desc: bool) {
    forall a, b :: less(a, b) <==> if desc then LessVal(key(b), key(a)) else LessVal(key(a), key(b))
  }

  lemma KeyOrderIsWeak(less: (Value, Value) -> bool, key: Value -> Value, desc: bool, rows: seq<Value>)
    requires ByKey(less, key, desc) && Uniform(set r | r in rows :: key(r))
    ensures WeakOrder(less, rows)
  {
    forall x, y | x in rows && y in rows ensures !(less(x, y) && less(y, x)) { ValuesOrdered(key(x), key(y)); }
    forall x, y, z | x in rows && y in rows && z in rows && less(x, z) ensures less(x, y) || less(y, z) {
      if desc { KeysSplit(key(z), key(y), key(x)); } else { KeysSplit(key(x), key(y), key(z)); }
    }
  }

  lemma KeysSplit(a: Value, b: Value, c: Value)
    requires Uniform({a, b, c}) && LessVal(a, c)
    ensures LessVal(a, b) || LessVal(b, c)
  {
    assert a in {a, b, c} && b in {a, b, c} && c in {a, b, c};
    ValuesOrdered(a, b);
    ValuesOrdered(b, c);
    ValuesOrdered(a, c);
    if LessVal(b, a) && LessVal(c, b) { ValuesTransitive(c, b, a); }
    if EqualVals(a, b) { SameTextSameOrder(a, b, c); }
    if EqualVals(b, c) { SameTextSameOrder(b, c, a); }
  }

  // Sorting by a key orders the keys and keeps what held between rows whose keys are equal.
  lemma KeySortArranges(less: (Value, Value) -> bool, key: Value -> Value, desc: bool, ties: (Value, Value) -> bool,
          rows: seq<Value>)
    requires ByKey(less, key, desc) && Uniform(set r | r in rows :: key(r)) && Pairwise(ties, rows)
    ensures KeyArranged(key, desc, ties, Sort(less, rows))
  {
    hide Sort, Pairwise, WeakOrder, KeyRises;
    var s := Sort(less, rows);
    KeyOrderIsWeak(less, key, desc, rows);
    SortOrdered(less, rows);
    SameMembers(s, rows);
    forall i, j | 0 <= i < j < |s|
      ensures if desc then KeyRises(key(s[j]), key(s[i])) else KeyRises(key(s[i]), key(s[j]))
      ensures key(s[i]) == key(s[j]) ==> ties(s[i], s[j])
    {
      var a, b := s[i], s[j];
      assert a in rows && b in rows;
      NotAbove(key(a), key(b));
      NotAbove(key(b), key(a));
      if key(a) == key(b) { TiesStand(less, key, desc, ties, rows, i, j); }
    }
  }

  lemma NotAbove(a: Value, b: Value)
    ensures KeyRises(a, b) <==> !LessVal(b, a)
    ensures KeyRises(a, a)
  {
    LessValExact(b, a);
    LessTextAsymmetric(ToStr(a), ToStr(a));
    LessTextExact(ToStr(a), ToStr(a));
  }

  lemma TiesStand(less: (Value, Value) -> bool, key: Value -> Value, desc: bool, ties: (Value, Value) -> bool,
          rows: seq<Value>, i: nat, j: nat)
    requires ByKey(less, key, desc) && WeakOrder(less, rows) && Pairwise(ties, rows)
    requires i < j < |Sort(less, rows)| && key(Sort(less, rows)[i]) == key(Sort(less, rows)[j])
    ensures ties(Sort(less, rows)[i], Sort(less, rows)[j])
  {
    hide Sort, WeakOrder, Filter;
    var s := Sort(less, rows);
    var p := (r: Value) => key(r) == key(s[i]);
    var kept := (x: Value, y: Value) => p(x) && p(y) ==> ties(x, y);
    NotAbove(key(s[i]), key(s[i]));
    EqualsKeepOrder(less, p, rows);
    PairwiseFilter(p, ties, kept, rows);
    PairwiseFilter(p, ties, kept, s);
    assert kept(s[i], s[j]);
  }

  lemma ArrangedPart(order: string, desc: bool, rows: seq<Value>, from: nat, to: nat)
    requires from <= to <= |rows| && Arranged(order, desc, rows)
    ensures Arranged(order, desc, rows[from..to])
  {
    var part := rows[from..to];
    forall i, j | 0 <= i < j < |part|
      ensures if desc then Lower(order, part[j], part[i]) else Lower(order, part[i], part[j])
    {
      assert part[i] == rows[from + i] && part[j] == rows[from + j];
    }
  }

  lemma PartComparable(order: string, rows: seq<Value>, part: seq<Value>)
    requires Comparable(order, rows) && forall r :: r in part ==> r in rows
    ensures Comparable(order, part)
  {
  }

  // ---- one page ----

  // A cursor names the last row of the page before; a malformed one is no cursor.
  datatype Cursor = Start | Malformed | After(orderVal: Value, id: int)

  datatype Query = Query(item: string, where: Option<Expr>, order: string, desc: bool, limit: int, after: Cursor)

  function Accepts(where: Option<Expr>, item: string, s: Scope): Value -> bool {
    r => Holds(where, Bound(s, item, r))
  }

  // Every matching row in order: what the pages of a query are pages of.
  function Matches(rows: seq<Value>, tables: Scope, where: Option<Expr>, item: string, order: string, desc: bool):
          seq<Value> {
    Sort(Before(order, desc), Filter(Accepts(where, item, tables), rows))
  }

  // What is left after the cursor; all of it when the cursor names no row.
  function Resume(all: seq<Value>, after: Cursor): seq<Value> {
    if after.After? then AfterId(all, after.id, all) else all
  }

  function AfterId(all: seq<Value>, id: int, otherwise: seq<Value>): seq<Value> {
    if all == [] then otherwise
    else if Id(all[0]) == id then all[1..]
    else AfterId(all[1..], id, otherwise)
  }

  function PageSize(q: Query): nat {
    if q.limit <= 0 then DEFAULT_PAGE else q.limit
  }

  function NextCursor(page: seq<Value>, q: Query): Cursor {
    if |page| == PageSize(q) && page != [] then
      After(if q.order == "" then VNil else FieldOf(page[|page| - 1], q.order), Id(page[|page| - 1]))
    else Start
  }

  method FilterRows(rows: seq<Value>, tables: Scope, q: Query) returns (filtered: seq<Value>)
    ensures filtered == Filter(Accepts(q.where, q.item, tables), rows)
  {
    var p := Accepts(q.where, q.item, tables);
    filtered := [];
    var i := 0;
    while i < |rows|
      invariant 0 <= i <= |rows| && filtered == Filter(p, rows[..i])
    {
      hide Holds;
      assert rows[..i + 1] == rows[..i] + [rows[i]];
      FilterLast(p, rows[..i], rows[i]);
      if Holds(q.where, Bound(tables, q.item, rows[i])) {
        filtered := filtered + [rows[i]];
      }
      i := i + 1;
    }
    assert rows[..i] == rows;
  }

  lemma FilterLast(p: Value -> bool, s: seq<Value>, x: Value)
    ensures Filter(p, s + [x]) == Filter(p, s) + if p(x) then [x] else []
  {
    FilterConcat(p, s, [x]);
    FilterCons(p, x, []);
    assert [x] + [] == [x];
  }

  method Seek(all: seq<Value>, after: Cursor) returns (rest: seq<Value>)
    ensures rest == Resume(all, after)
  {
    rest := all;
    if after.After? {
      var k := 0;
      while k < |all| && Id(all[k]) != after.id
        invariant 0 <= k <= |all|
        invariant AfterId(all, after.id, all) == AfterId(all[k..], after.id, all)
      {
        assert all[k..][1..] == all[k + 1..];
        k := k + 1;
      }
      if k < |all| {
        assert all[k..][1..] == all[k + 1..];
        rest := all[k + 1..];
      }
    }
  }

  method RunQuery(rows: seq<Value>, tables: Scope, q: Query) returns (page: seq<Value>, next: Cursor)
    ensures page == Take(PageSize(q), Resume(Matches(rows, tables, q.where, q.item, q.order, q.desc), q.after))
    ensures next == NextCursor(page, q) && |page| <= if q.limit <= 0 then 50 else q.limit
    ensures UniqueIds(rows) && Comparable(q.order, rows) ==> Arranged(q.order, q.desc, page)
  {
    hide Sort, Filter, Resume, FieldOf, UniqueIds, Comparable, Arranged;
    var filtered := FilterRows(rows, tables, q);
    var rest := Seek(Sort(Before(q.order, q.desc), filtered), q.after);
    page := if |rest| > PageSize(q) then rest[..PageSize(q)] else rest;
    next := Start;
    if |page| == PageSize(q) {
      next := After(if q.order == "" then VNil else FieldOf(page[|page| - 1], q.order), Id(page[|page| - 1]));
    }
    if UniqueIds(rows) && Comparable(q.order, rows) { PageArranged(rows, tables, q); }
  }

  lemma PageArranged(rows: seq<Value>, tables: Scope, q: Query)
    requires UniqueIds(rows) && Comparable(q.order, rows)
    ensures var all := Matches(rows, tables, q.where, q.item, q.order, q.desc);
      Arranged(q.order, q.desc, all) && Arranged(q.order, q.desc, Take(PageSize(q), Resume(all, q.after)))
  {
    hide Sort, Filter, UniqueIds, Comparable, Arranged, AfterId;
    var p := Accepts(q.where, q.item, tables);
    var all := Matches(rows, tables, q.where, q.item, q.order, q.desc);
    FilteredIds(p, rows);
    FilterMembers(p, rows);
    PartComparable(q.order, rows, Filter(p, rows));
    SortArranges(q.order, q.desc, Filter(p, rows));
    var from := ResumeIsSuffix(all, q.after);
    var rest := all[from..];
    var to := from + |Take(PageSize(q), rest)|;
    assert Take(PageSize(q), rest) == all[from..to];
    ArrangedPart(q.order, q.desc, all, from, to);
  }

  lemma ResumeIsSuffix(all: seq<Value>, after: Cursor) returns (from: nat)
    ensures from <= |all| && Resume(all, after) == all[from..]
  {
    from := 0;
    if after.After? {
      while from < |all| && Id(all[from]) != after.id
        invariant from <= |all| && AfterId(all, after.id, all) == AfterId(all[from..], after.id, all)
      {
        assert all[from..][1..] == all[from + 1..];
        from := from + 1;
      }
      from := if from < |all| then from + 1 else 0;
    }
  }

  lemma {:induction false} ResumeAfterRow(all: seq<Value>, i: nat, otherwise: seq<Value>)
    requires UniqueIds(all) && i < |all|
    ensures AfterId(all, Id(all[i]), otherwise) == all[i + 1..]
  {
    if i > 0 {
      assert Id(all[0]) != Id(all[i]);
      ResumeAfterRow(all[1..], i - 1, otherwise);
      assert all[1..][i - 1] == all[i] && all[1..][i..] == all[i + 1..];
    }
  }

  // Following a query's cursor until it is empty.
  ghost function Drain(all: seq<Value>, from: nat, after: Cursor, q: Query): seq<Value>
    requires UniqueIds(all) && from <= |all| && Resume(all, after) == all[from..]
    decreases |all| - from
  {
    var page := Take(PageSize(q), all[from..]);
    if NextCursor(page, q) == Start then page
    else
      ResumeAfterRow(all, from + |page| - 1, all);
      page + Drain(all, from + |page|, NextCursor(page, q), q)
  }

  lemma TakenAndRest(all: seq<Value>, from: nat, n: nat)
    requires from + n <= |all|
    ensures all[from..] == all[from..][..n] + all[from + n..]
  {
  }

  // Every matching row comes exactly once, in order, whatever the page size.
  lemma {:induction false} DrainIsEverything(all: seq<Value>, from: nat, after: Cursor, q: Query)
    requires UniqueIds(all) && from <= |all| && Resume(all, after) == all[from..]
    ensures Drain(all, from, after, q) == all[from..]
    decreases |all| - from
  {
    var page := Take(PageSize(q), all[from..]);
    LastPage(all, from, q);
    if NextCursor(page, q) != Start {
      ResumeAfter(all, from, page, NextCursor(page, q), q);
      hide AfterId, UniqueIds, NextCursor, Resume;
      DrainIsEverything(all, from + |page|, NextCursor(page, q), q);
      TakenAndRest(all, from, |page|);
    }
  }

  lemma LastPage(all: seq<Value>, from: nat, q: Query)
    requires from <= |all|
    ensures var page := Take(PageSize(q), all[from..]); NextCursor(page, q) == Start ==> page == all[from..]
  {
  }

  // ---- a list ----

  // What a list should show: the rows its predicate wants, in order, capped.
  function Capped(limit: Option<int>, rows: seq<Value>): seq<Value> {
    if limit.None? then rows else if limit.value <= 0 then [] else Take(limit.value, rows)
  }

  function Wants(ent: Entity, item: string, where: Option<Expr>, s: Scope): Value -> bool {
    r => Wanted(ent, item, where, Bound(s, item, r))
  }

  function Shown(rows: seq<Value>, ent: Entity, item: string, where: Option<Expr>, order: string, desc: bool, s: Scope):
          seq<Value> {
    Sort(Before(order, desc), Filter(Wants(ent, item, where, s), rows))
  }

  lemma FilteredIds(p: Value -> bool, rows: seq<Value>)
    requires UniqueIds(rows)
    ensures UniqueIds(Filter(p, rows))
  {
    if rows != [] {
      FilteredIds(p, rows[1..]);
      FilterMembers(p, rows[1..]);
      forall r | r in Filter(p, rows[1..]) ensures Id(r) != Id(rows[0]) {
        assert r in rows[1..];
      }
    }
  }

  lemma SortedIds(less: (Value, Value) -> bool, rows: seq<Value>)
    requires UniqueIds(rows)
    ensures UniqueIds(Sort(less, rows))
  {
    var s := Sort(less, rows);
    SameMembers(s, rows);
    forall i, j | 0 <= i < j < |s| ensures Id(s[i]) != Id(s[j]) {
      assert s[i] in rows && s[j] in rows;
      var k :| 0 <= k < |rows| && rows[k] == s[i];
      var m :| 0 <= m < |rows| && rows[m] == s[j];
      if k == m {
        OnceOnly(rows, k);
        TwiceCounted(s, i, j);
      }
    }
  }

  lemma TwiceCounted(s: seq<Value>, i: nat, j: nat)
    requires i < j < |s| && s[i] == s[j]
    ensures multiset(s)[s[i]] >= 2
  {
    assert s == s[..i] + [s[i]] + s[i + 1..j] + [s[j]] + s[j + 1..];
  }

  lemma OnceOnly(rows: seq<Value>, k: nat)
    requires UniqueIds(rows) && k < |rows|
    ensures multiset(rows)[rows[k]] == 1
  {
    assert rows == rows[..k] + [rows[k]] + rows[k + 1..];
    assert rows[k] !in rows[..k] && rows[k] !in rows[k + 1..];
  }

  // The store's rows, rechecked against the residual, are the wanted rows in order.
  lemma SplitRowsAreShown(rows: seq<Value>, ent: Entity, item: string, where: Option<Expr>, order: string, desc: bool,
          s: Scope, tables: Scope, push: Option<Expr>, residual: Option<Expr>)
    requires UniqueIds(rows) && Comparable(order, rows) && SplitsExactly(ent, item, where, s, rows, push, residual)
    ensures var all := Matches(rows, tables, push, item, order, desc);
      Filter(Accepts(residual, item, s), all) == Shown(rows, ent, item, where, order, desc, s) && UniqueIds(all)
  {
    hide Filter, Sort, WeakOrder, UniqueIds, Comparable;
    var p, r := Accepts(push, item, tables), Accepts(residual, item, s);
    var less := Before(order, desc);
    var kept := Filter(p, rows);
    FilterMembers(p, rows);
    FilteredIds(p, rows);
    SortedIds(less, kept);
    BeforeIsWeakOrder(order, desc, rows);
    WeakPart(less, rows, kept);
    SortCommutesWithFilter(less, r, kept);
    forall i | 0 <= i < |rows| ensures Wants(ent, item, where, s)(rows[i]) <==> p(rows[i]) && r(rows[i]) {
      if push.Some? { PushableIsLocal(push.value, item, Bound(tables, item, rows[i]), Bound(map[], item, rows[i])); }
    }
    FilterTwice(p, r, Wants(ent, item, where, s), rows);
  }

  lemma {:induction false} FilterNothingOut(p: Value -> bool, s: seq<Value>)
    requires forall r: Value :: p(r)
    ensures Filter(p, s) == s
  {
    if s != [] {
      FilterNothingOut(p, s[1..]);
      assert s == [s[0]] + s[1..];
    }
  }

  lemma ShownArranged(rows: seq<Value>, ent: Entity, item: string, where: Option<Expr>, order: string, desc: bool,
          limit: Option<int>, s: Scope)
    requires UniqueIds(rows) && Comparable(order, rows)
    ensures var shown := Shown(rows, ent, item, where, order, desc, s);
      Arranged(order, desc, shown) && Arranged(order, desc, Capped(limit, shown))
  {
    hide Sort, Filter, UniqueIds, Comparable, Arranged;
    var p := Wants(ent, item, where, s);
    var shown := Shown(rows, ent, item, where, order, desc, s);
    FilteredIds(p, rows);
    FilterMembers(p, rows);
    PartComparable(order, rows, Filter(p, rows));
    SortArranges(order, desc, Filter(p, rows));
    assert Capped(limit, shown) == shown[..|Capped(limit, shown)|] == shown[0..|Capped(limit, shown)|];
    ArrangedPart(order, desc, shown, 0, |Capped(limit, shown)|);
  }

  // A list's rows, read through the store: the page size, the split and the cursor leave no trace.
  method ListRows(rows: seq<Value>, tables: Scope, ent: Entity, item: string, where: Option<Expr>, order: string,
          desc: bool, limit: Option<int>, s: Scope) returns (out: seq<Value>)
    requires UniqueIds(rows) && Comparable(order, rows) && Splittable(ent, item, where, s, rows)
    ensures out == Capped(limit, Shown(rows, ent, item, where, order, desc, s))
    ensures Arranged(order, desc, out)
  {
    hide Splittable, SplitsExactly, Matches, UniqueIds, Comparable, Holds, Arranged, Shown;
    ShownArranged(rows, ent, item, where, order, desc, limit, s);
    var cap := 0;
    if limit.Some? {
      cap := limit.value;
      if cap <= 0 { return []; }
    }
    var push, residual := SplitPredicate(ent, item, where, s, rows);
    SplitRowsAreShown(rows, ent, item, where, order, desc, s, tables, push, residual);
    if residual.None? && cap > 0 {
      NoResidual(item, s);
      FilterNothingOut(Accepts(None, item, s), Matches(rows, tables, push, item, order, desc));
      var page, next := RunQuery(rows, tables, Query(item, push, order, desc, cap, Start));
      return page;
    }
    out := FollowPages(rows, tables, push, residual, item, order, desc, cap, s);
  }

  lemma NoResidual(item: string, s: Scope)
    ensures forall r: Value :: Accepts(None, item, s)(r)
  {
  }

  // One page rechecked row by row, stopping at the cap; a cap of 0 is no cap.
  method RecheckPage(page: seq<Value>, residual: Option<Expr>, item: string, s: Scope, sofar: seq<Value>, cap: nat)
          returns (out: seq<Value>, full: bool)
    requires cap > 0 ==> |sofar| < cap
    ensures full <==> cap > 0 && |sofar + Filter(Accepts(residual, item, s), page)| >= cap
    ensures out == if full then Take(cap, sofar + Filter(Accepts(residual, item, s), page))
      else sofar + Filter(Accepts(residual, item, s), page)
  {
    hide Filter, Holds;
    var p := Accepts(residual, item, s);
    out := sofar;
    full := false;
    var j := 0;
    while j < |page|
      invariant 0 <= j <= |page| && out == sofar + Filter(p, page[..j]) && (cap > 0 ==> |out| < cap)
    {
      Rechecked(p, sofar, page, j);
      if Holds(residual, Bound(s, item, page[j])) {
        out := out + [page[j]];
        if cap > 0 && |out| >= cap {
          return out, true;
        }
      }
      j := j + 1;
    }
    assert page[..j] == page;
  }

  // One more row rechecked, and all that is still to come only adds to it.
  lemma Rechecked(p: Value -> bool, sofar: seq<Value>, page: seq<Value>, j: nat)
    requires j < |page|
    ensures sofar + Filter(p, page[..j + 1]) == (sofar + Filter(p, page[..j])) + if p(page[j]) then [page[j]] else []
    ensures sofar + Filter(p, page[..j + 1]) <= sofar + Filter(p, page)
  {
    hide Filter;
    FilterSplit(p, page, j + 1);
    FilterStep(p, page, j);
    var one := if p(page[j]) then [page[j]] else [];
    AddedOn(sofar, Filter(p, page[..j]), one, Filter(p, page[j + 1..]));
  }

  lemma AddedOn(a: seq<Value>, b: seq<Value>, c: seq<Value>, d: seq<Value>)
    ensures a + (b + c) == (a + b) + c && a + (b + c) <= a + ((b + c) + d)
  {
    assert a + ((b + c) + d) == (a + (b + c)) + d;
  }

  lemma FilterStep(p: Value -> bool, s: seq<Value>, j: nat)
    requires j < |s|
    ensures Filter(p, s[..j + 1]) == Filter(p, s[..j]) + if p(s[j]) then [s[j]] else []
  {
    hide Filter;
    assert s[..j + 1] == s[..j] + [s[j]];
    FilterLast(p, s[..j], s[j]);
  }

  lemma FilterSplit(p: Value -> bool, s: seq<Value>, k: nat)
    requires k <= |s|
    ensures Filter(p, s) == Filter(p, s[..k]) + Filter(p, s[k..])
  {
    hide *;
    var a, b := s[..k], s[k..];
    FilterConcat(p, a, b);
    assert a + b == s;
  }

  // The loop over the cursor.
  method FollowPages(rows: seq<Value>, tables: Scope, push: Option<Expr>, residual: Option<Expr>, item: string,
          order: string, desc: bool, cap: nat, s: Scope) returns (out: seq<Value>)
    requires UniqueIds(Matches(rows, tables, push, item, order, desc))
    ensures var shown := Filter(Accepts(residual, item, s), Matches(rows, tables, push, item, order, desc));
      out == if cap == 0 then shown else Take(cap, shown)
  {
    hide Matches, Accepts, UniqueIds, AfterId, Filter, Resume, Take, NextCursor;
    ghost var all := Matches(rows, tables, push, item, order, desc);
    ghost var p := Accepts(residual, item, s);
    ghost var from := 0;
    var after := Start;
    out := [];
    FirstPage(p, all);
    while true
      invariant from <= |all| && Resume(all, after) == all[from..]
      invariant out == Filter(p, all[..from]) && (cap > 0 ==> |out| < cap)
      decreases |all| - from
    {
      var q := Query(item, push, order, desc, LIST_PAGE_SIZE, after);
      var page, next := RunQuery(rows, tables, q);
      PageOf(p, all, from, page, q);
      TakeFrom(cap, out + Filter(p, page), Filter(p, all));
      var full: bool;
      out, full := RecheckPage(page, residual, item, s, out, cap);
      if full || next == Start { return; }
      ResumeAfter(all, from, page, next, q);
      from := from + |page|;
      after := next;
    }
  }

  lemma FirstPage(p: Value -> bool, all: seq<Value>)
    ensures Resume(all, Start) == all[0..] && Filter(p, all[..0]) == []
  {
    assert all[..0] == [];
  }

  // Capping what has been read so far, when it is a beginning of everything.
  lemma TakeFrom(cap: nat, part: seq<Value>, everything: seq<Value>)
    requires part <= everything
    ensures |part| >= cap ==> Take(cap, part) == Take(cap, everything)
    ensures part == everything && |part| < cap ==> Take(cap, everything) == everything
  {
  }

  // A page read from position `from`: what it adds, and that a short page is the last.
  lemma PageOf(p: Value -> bool, all: seq<Value>, from: nat, page: seq<Value>, q: Query)
    requires from <= |all| && page == Take(PageSize(q), all[from..])
    ensures from + |page| <= |all|
    ensures Filter(p, all[..from]) + Filter(p, page) == Filter(p, all[..from + |page|])
    ensures Filter(p, all[..from + |page|]) <= Filter(p, all)
    ensures NextCursor(page, q) == Start ==> Filter(p, all[..from + |page|]) == Filter(p, all)
  {
    hide Filter;
    var to := from + |page|;
    assert page == all[from..to];
    SliceSplit(p, all, from, to);
    FilterSplit(p, all, to);
    assert to == |all| ==> all[..to] == all;
  }

  lemma SliceSplit(p: Value -> bool, all: seq<Value>, from: nat, to: nat)
    requires from <= to <= |all|
    ensures Filter(p, all[..from]) + Filter(p, all[from..to]) == Filter(p, all[..to])
  {
    hide Filter;
    var front := all[..to];
    FilterSplit(p, front, from);
    assert front[..from] == all[..from];
    assert front[from..] == all[from..to];
  }

  lemma ResumeAfter(all: seq<Value>, from: nat, page: seq<Value>, next: Cursor, q: Query)
    requires UniqueIds(all) && from <= |all| && page == Take(PageSize(q), all[from..])
    requires next == NextCursor(page, q) && next != Start
    ensures 0 < |page| && from + |page| <= |all| && Resume(all, next) == all[from + |page|..]
  {
    ResumeAfterRow(all, from + |page| - 1, all);
  }

  // ---- a computed order ----

  function KeyBefore(key: Expr, item: string, desc: bool, s: Scope): (Value, Value) -> bool {
    (a: Value, b: Value) =>
      var x, y := Eval(key, Bound(s, item, a)), Eval(key, Bound(s, item, b));
      if desc then LessVal(y, x) else LessVal(x, y)
  }

  function KeyOf(key: Expr, item: string, s: Scope): Value -> Value {
    (r: Value) => Eval(key, Bound(s, item, r))
  }

  ghost function InOrder(order: string, desc: bool): (Value, Value) -> bool {
    (a: Value, b: Value) => if desc then Lower(order, b, a) else Lower(order, a, b)
  }

  // The order of a list: the stored one, or its key's where the keys compare consistently, rows with
  // equal keys in the stored one.
  ghost predicate ListArranged(key: Option<Expr>, rows: seq<Value>, item: string, order: string, desc: bool, s: Scope,
          out: seq<Value>) {
    match key
    case None => Arranged(order, desc, out)
    case Some(k) => Uniform(set r | r in rows :: KeyOf(k, item, s)(r)) ==>
      KeyArranged(KeyOf(k, item, s), desc, InOrder(order, desc), out)
  }

  lemma KeyedArranged(key: Expr, rows: seq<Value>, ent: Entity, item: string, where: Option<Expr>, order: string,
          desc: bool, limit: Option<int>, s: Scope)
    requires UniqueIds(rows) && Comparable(order, rows)
    ensures var sorted := Sort(KeyBefore(key, item, desc, s), Shown(rows, ent, item, where, order, desc, s));
      ListArranged(Some(key), rows, item, order, desc, s, Capped(limit, sorted))
  {
    hide Sort, UniqueIds, Comparable, Pairwise, KeyArranged, InOrder, Shown, Uniform, Eval;
    var keyOf, less := KeyOf(key, item, s), KeyBefore(key, item, desc, s);
    var shown := Shown(rows, ent, item, where, order, desc, s);
    if Uniform(set r | r in rows :: keyOf(r)) {
      ShownStands(rows, ent, item, where, order, desc, s);
      UniformKeys(keyOf, rows, shown);
      KeySortArranges(less, keyOf, desc, InOrder(order, desc), shown);
      KeyArrangedCapped(keyOf, desc, InOrder(order, desc), limit, Sort(less, shown));
    }
  }

  lemma ShownStands(rows: seq<Value>, ent: Entity, item: string, where: Option<Expr>, order: string, desc: bool,
          s: Scope)
    requires UniqueIds(rows) && Comparable(order, rows)
    ensures var shown := Shown(rows, ent, item, where, order, desc, s);
      Pairwise(InOrder(order, desc), shown) && forall r :: r in shown ==> r in rows
  {
    hide Sort, Filter, UniqueIds, Comparable, Lower;
    var p := Wants(ent, item, where, s);
    FilterMembers(p, rows);
    SameMembers(Shown(rows, ent, item, where, order, desc, s), Filter(p, rows));
    ShownArranged(rows, ent, item, where, order, desc, None, s);
  }

  lemma UniformKeys(key: Value -> Value, rows: seq<Value>, part: seq<Value>)
    requires Uniform(set r | r in rows :: key(r)) && forall r :: r in part ==> r in rows
    ensures Uniform(set r | r in part :: key(r))
  {
    assert (set r | r in part :: key(r)) <= set r | r in rows :: key(r);
  }

  lemma KeyArrangedCapped(key: Value -> Value, desc: bool, ties: (Value, Value) -> bool, limit: Option<int>,
          rows: seq<Value>)
    requires KeyArranged(key, desc, ties, rows)
    ensures KeyArranged(key, desc, ties, Capped(limit, rows))
  {
    hide KeyRises;
  }

  // `for … by <expr>`: every wanted row is read, keyed here, and only then capped.
  method ListRowsBy(rows: seq<Value>, tables: Scope, ent: Entity, item: string, where: Option<Expr>, order: string,
          desc: bool, key: Expr, limit: Option<int>, s: Scope) returns (out: seq<Value>)
    requires UniqueIds(rows) && Comparable(order, rows) && Splittable(ent, item, where, s, rows)
    ensures out == Capped(limit, Sort(KeyBefore(key, item, desc, s), Shown(rows, ent, item, where, order, desc, s)))
    ensures ListArranged(Some(key), rows, item, order, desc, s, out)
  {
    hide ListArranged, Shown, UniqueIds, Comparable, Splittable;
    KeyedArranged(key, rows, ent, item, where, order, desc, limit, s);
    var all := ListRows(rows, tables, ent, item, where, order, desc, None, s);
    out := Sort(KeyBefore(key, item, desc, s), all);
    if limit.Some? {
      if limit.value <= 0 { return []; }
      if |out| > limit.value { out := out[..limit.value]; }
    }
  }

  // What a list shows in its own order, stored or computed.
  function Ordered(key: Option<Expr>, rows: seq<Value>, ent: Entity, item: string, where: Option<Expr>, order: string,
          desc: bool, s: Scope): seq<Value> {
    var shown := Shown(rows, ent, item, where, order, desc, s);
    if key.None? then shown else Sort(KeyBefore(key.value, item, desc, s), shown)
  }

  method ListRowsOrdered(rows: seq<Value>, tables: Scope, ent: Entity, item: string, where: Option<Expr>, order: string,
          desc: bool, key: Option<Expr>, limit: Option<int>, s: Scope) returns (out: seq<Value>)
    requires UniqueIds(rows) && Comparable(order, rows) && Splittable(ent, item, where, s, rows)
    ensures out == Capped(limit, Ordered(key, rows, ent, item, where, order, desc, s))
    ensures ListArranged(key, rows, item, order, desc, s, out)
  {
    if key.Some? {
      out := ListRowsBy(rows, tables, ent, item, where, order, desc, key.value, limit, s);
    } else {
      out := ListRows(rows, tables, ent, item, where, order, desc, limit, s);
    }
  }

  // A list that asks whether it was cut off reads one row more than it shows.
  method ListRowsMore(rows: seq<Value>, tables: Scope, ent: Entity, item: string, where: Option<Expr>, order: string,
          desc: bool, key: Option<Expr>, limit: Option<int>, asks: bool, s: Scope) returns (out: seq<Value>, more: bool)
    requires UniqueIds(rows) && Comparable(order, rows) && Splittable(ent, item, where, s, rows)
    ensures out == Capped(limit, Ordered(key, rows, ent, item, where, order, desc, s))
    ensures ListArranged(key, rows, item, order, desc, s, out)
    ensures more
      <==> asks && limit.Some? && limit.value > 0 && |Shown(rows, ent, item, where, order, desc, s)| > limit.value
  {
    hide Ordered, Shown, UniqueIds, Comparable, Splittable;
    OrderedSize(key, rows, ent, item, where, order, desc, s);
    if !asks || limit.None? {
      out := ListRowsOrdered(rows, tables, ent, item, where, order, desc, key, limit, s);
      return out, false;
    }
    if limit.value <= 0 { return [], false; }
    var probe := ListRowsOrdered(rows, tables, ent, item, where, order, desc, key, Some(limit.value + 1), s);
    if |probe| > limit.value { return probe[..limit.value], true; }
    return probe, false;
  }

  lemma OrderedSize(key: Option<Expr>, rows: seq<Value>, ent: Entity, item: string, where: Option<Expr>, order: string,
          desc: bool, s: Scope)
    ensures |Ordered(key, rows, ent, item, where, order, desc, s)| == |Shown(rows, ent, item, where, order, desc, s)|
  {
    var shown := Shown(rows, ent, item, where, order, desc, s);
    if key.Some? {
      var sorted := Sort(KeyBefore(key.value, item, desc, s), shown);
      assert multiset(sorted) == multiset(shown);
      assert |multiset(sorted)| == |sorted| && |multiset(shown)| == |shown|;
    }
  }

  // With the entity's read rule folded in first, a list shows exactly the rows the rule admits, the
  // query's own predicate accepts and, for a softdelete entity, that are not archived.
  lemma ShownObeysReadRule(rows: seq<Value>, ent: Entity, item: string, where: Option<Expr>, order: string, desc: bool,
          s: Scope, r: Value)
    requires ent.readRule.Some? ==> NoCapture(ent.readRule.value, item)
    ensures r in Shown(rows, ent, item, ApplyReadPolicy(ent, item, where), order, desc, s) <==>
      && r in rows
      && Holds(ent.readRule, Bound(s, item, r)[ROW := r])
      && Holds(where, Bound(s, item, r))
      && (ent.softDelete ==> Truthy(Eval(NotArchived(item), Bound(s, item, r))))
  {
    var p := Wants(ent, item, ApplyReadPolicy(ent, item, where), s);
    SameMembers(Sort(Before(order, desc), Filter(p, rows)), Filter(p, rows));
    FilterMembers(p, rows);
    ReadRuleFolded(ent, item, where, Bound(s, item, r));
  }
}
