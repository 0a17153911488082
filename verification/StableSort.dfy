// What the runtime takes from Go's stable sort: the rows in order, equals as they came.
module StableSort {
  import opened Sequences

  // The comparators of this code are strict weak orders on the rows they sort; a descending query's
  // also answers true of a row and itself, which never decides between two rows.
  ghost predicate WeakOrder<T(!new)>(less: (T, T) -> bool, s: seq<T>) {
    && (forall x, y :: x in s && y in s && less(x, y) && less(y, x) ==> x == y)
    && (forall x, y, z :: x in s && y in s && z in s && less(x, z) ==> less(x, y) || less(y, z))
  }

  ghost predicate Ordered<T>(less: (T, T) -> bool, s: seq<T>) {
    forall i, j :: 0 <= i < j < |s| ==> !less(s[j], s[i]) || s[j] == s[i]
  }

  function Insert<T>(less: (T, T) -> bool, x: T, s: seq<T>): (r: seq<T>)
    ensures multiset(r) == multiset(s) + multiset{x}
  {
    if s == [] then [x]
    else if less(s[0], x) then
      assert s == [s[0]] + s[1..];
      [s[0]] + Insert(less, x, s[1..])
    else [x] + s
  }

  function Sort<T>(less: (T, T) -> bool, s: seq<T>): (r: seq<T>)
    ensures multiset(r) == multiset(s)
  {
    if s == [] then []
    else
      assert s == [s[0]] + s[1..];
      Insert(less, s[0], Sort(less, s[1..]))
  }

  lemma SameMembers<T>(a: seq<T>, b: seq<T>)
    requires multiset(a) == multiset(b)
    ensures |a| == |b| && forall x :: x in a <==> x in b
  {
    assert |multiset(a)| == |a| && |multiset(b)| == |b|;
    forall x ensures x in a <==> x in b { assert x in a <==> x in multiset(a); assert x in b <==> x in multiset(b); }
  }

  function Filter<T>(p: T -> bool, s: seq<T>): (r: seq<T>)
    ensures |r| <= |s|
  {
    if s == [] then [] else (if p(s[0]) then [s[0]] else []) + Filter(p, s[1..])
  }

  lemma {:induction false} FilterMembers<T(!new)>(p: T -> bool, s: seq<T>)
    ensures forall x :: x in Filter(p, s) <==> x in s && p(x)
  {
    if s != [] {
      FilterMembers(p, s[1..]);
      assert s == [s[0]] + s[1..];
    }
  }

  function Take<T>(n: nat, s: seq<T>): seq<T> {
    if n < |s| then s[..n] else s
  }

  lemma FilterCons<T>(p: T -> bool, x: T, s: seq<T>)
    ensures Filter(p, [x] + s) == if p(x) then [x] + Filter(p, s) else Filter(p, s)
  {
    assert ([x] + s)[1..] == s;
  }

  lemma InsertCons<T>(less: (T, T) -> bool, x: T, y: T, s: seq<T>)
    ensures Insert(less, x, [y] + s) == if less(y, x) then [y] + Insert(less, x, s) else [x] + ([y] + s)
  {
    assert ([y] + s)[1..] == s;
  }

  lemma {:induction false} FilterConcat<T>(p: T -> bool, a: seq<T>, b: seq<T>)
    ensures Filter(p, a + b) == Filter(p, a) + Filter(p, b)
  {
    if a == [] {
      assert a + b == b;
    } else {
      hide Filter;
      var x, t := a[0], a[1..];
      assert a == [x] + t;
      Associates([x], t, b);
      FilterConcat(p, t, b);
      FilterCons(p, x, t + b);
      FilterCons(p, x, t);
      Associates([x], Filter(p, t), Filter(p, b));
    }
  }

  lemma {:induction false} FilterTwice<T>(p: T -> bool, q: T -> bool, both: T -> bool, s: seq<T>)
    requires forall i :: 0 <= i < |s| ==> (both(s[i]) <==> p(s[i]) && q(s[i]))
    ensures Filter(q, Filter(p, s)) == Filter(both, s)
  {
    if s != [] {
      FilterTwice(p, q, both, s[1..]);
      FilterCons(p, s[0], s[1..]);
      FilterCons(q, s[0], Filter(p, s[1..]));
      FilterCons(both, s[0], s[1..]);
      assert s == [s[0]] + s[1..];
    }
  }

  lemma OrderedCons<T(!new)>(less: (T, T) -> bool, y: T, s: seq<T>)
    requires Ordered(less, s) && forall z :: z in s ==> !less(z, y) || z == y
    ensures Ordered(less, [y] + s)
  {
    forall j | 0 <= j < |s| ensures !less(s[j], y) || s[j] == y { assert s[j] in s; }
  }

  lemma OrderedHead<T(!new)>(less: (T, T) -> bool, y: T, s: seq<T>)
    requires Ordered(less, [y] + s)
    ensures Ordered(less, s) && forall z :: z in s ==> !less(z, y) || z == y
  {
    var all := [y] + s;
    forall i, j | 0 <= i < j < |s| ensures !less(s[j], s[i]) || s[j] == s[i] {
      assert s[j] == all[j + 1] && s[i] == all[i + 1];
    }
    forall z | z in s ensures !less(z, y) || z == y {
      var k :| 0 <= k < |s| && s[k] == z;
      assert all[0] == y && all[k + 1] == z;
    }
  }

  lemma {:induction false} InsertOrdered<T(!new)>(less: (T, T) -> bool, x: T, s: seq<T>)
    requires WeakOrder(less, s + [x]) && Ordered(less, s)
    ensures Ordered(less, Insert(less, x, s))
  {
    if s != [] {
      hide Ordered;
      var y, rest := s[0], s[1..];
      assert s == [y] + rest && y in s + [x] && x in s + [x] && forall z :: z in rest ==> z in s + [x];
      OrderedHead(less, y, rest);
      InsertCons(less, x, y, rest);
      if less(y, x) {
        WeakPart(less, s + [x], rest + [x]);
        InsertOrdered(less, x, rest);
        SameMembers(Insert(less, x, rest), rest + [x]);
        OrderedCons(less, y, Insert(less, x, rest));
      } else {
        OrderedCons(less, x, s);
      }
    }
  }

  lemma WeakPart<T(!new)>(less: (T, T) -> bool, s: seq<T>, part: seq<T>)
    requires WeakOrder(less, s) && forall x :: x in part ==> x in s
    ensures WeakOrder(less, part)
  {
  }

  lemma {:induction false} SortOrdered<T(!new)>(less: (T, T) -> bool, s: seq<T>)
    requires WeakOrder(less, s)
    ensures Ordered(less, Sort(less, s))
  {
    if s != [] {
      WeakPart(less, s, s[1..]);
      SortOrdered(less, s[1..]);
      var rest := Sort(less, s[1..]);
      SameMembers(rest, s[1..]);
      WeakPart(less, s, rest + [s[0]]);
      InsertOrdered(less, s[0], rest);
    }
  }

  lemma {:induction false} InsertThenFilter<T(!new)>(less: (T, T) -> bool, p: T -> bool, x: T, s: seq<T>)
    requires WeakOrder(less, s + [x]) && Ordered(less, s)
    ensures Filter(p, Insert(less, x, s)) == if p(x) then Insert(less, x, Filter(p, s)) else Filter(p, s)
  {
    if s != [] {
      hide Filter, WeakOrder, Ordered;
      var y, rest := s[0], s[1..];
      assert s == [y] + rest;
      InsertCons(less, x, y, rest);
      FilterCons(p, y, rest);
      if less(y, x) {
        WeakPart(less, s + [x], rest + [x]);
        OrderedTail(less, s);
        InsertThenFilter(less, p, x, rest);
        FilterCons(p, y, Insert(less, x, rest));
        InsertCons(less, x, y, Filter(p, rest));
      } else {
        NothingBefore(less, p, x, s);
        FilterCons(p, x, s);
      }
    } else {
      FilterCons(p, x, []);
      assert [x] + [] == [x];
    }
  }

  lemma OrderedTail<T>(less: (T, T) -> bool, s: seq<T>)
    requires s != [] && Ordered(less, s)
    ensures Ordered(less, s[1..])
  {
  }

  // What goes before all of an ordered sequence goes before all that a filter keeps of it.
  lemma NothingBefore<T(!new)>(less: (T, T) -> bool, p: T -> bool, x: T, s: seq<T>)
    requires WeakOrder(less, s + [x]) && Ordered(less, s) && s != [] && !less(s[0], x)
    ensures Filter(p, s) != [] ==> !less(Filter(p, s)[0], x)
  {
    if Filter(p, s) != [] {
      var y := Filter(p, s)[0];
      FilterMembers(p, s);
      assert y in Filter(p, s);
      var k :| 0 <= k < |s| && s[k] == y;
      assert s[0] in s + [x] && y in s + [x] && x in s + [x];
      assert k > 0 ==> s[k] == s[0] || !less(s[k], s[0]);
    }
  }

  // A stable sort commutes with filtering.
  lemma {:induction false} SortCommutesWithFilter<T(!new)>(less: (T, T) -> bool, p: T -> bool, s: seq<T>)
    requires WeakOrder(less, s)
    ensures Filter(p, Sort(less, s)) == Sort(less, Filter(p, s))
  {
    if s != [] {
      hide Filter, WeakOrder, Ordered, Insert;
      var x, rest := s[0], s[1..];
      assert s == [x] + rest;
      WeakPart(less, s, rest);
      SortCommutesWithFilter(less, p, rest);
      SortOrdered(less, rest);
      SameMembers(Sort(less, rest), rest);
      WeakPart(less, s, Sort(less, rest) + [x]);
      InsertThenFilter(less, p, x, Sort(less, rest));
      FilterCons(p, x, rest);
      SortCons(less, x, Filter(p, rest));
    }
  }

  lemma SortCons<T>(less: (T, T) -> bool, x: T, s: seq<T>)
    ensures Sort(less, [x] + s) == Insert(less, x, Sort(less, s))
  {
    assert ([x] + s)[1..] == s;
  }

  // Rows none of which goes before another come out as they came in.
  lemma {:induction false} SortEquals<T(!new)>(less: (T, T) -> bool, s: seq<T>)
    requires forall x, y :: x in s && y in s ==> !less(x, y)
    ensures Sort(less, s) == s
  {
    if s != [] {
      SortEquals(less, s[1..]);
      assert s == [s[0]] + s[1..];
    }
  }

  // Stability: sorting leaves the order among equals as it was.
  lemma EqualsKeepOrder<T(!new)>(less: (T, T) -> bool, p: T -> bool, s: seq<T>)
    requires WeakOrder(less, s) && forall x, y :: x in s && y in s && p(x) && p(y) ==> !less(x, y)
    ensures Filter(p, Sort(less, s)) == Filter(p, s)
  {
    SortCommutesWithFilter(less, p, s);
    FilterMembers(p, s);
    SortEquals(less, Filter(p, s));
  }

  // Every earlier element stands so to every later one.
  ghost predicate Pairwise<T(!new)>(between: (T, T) -> bool, s: seq<T>) {
    forall i, j :: 0 <= i < j < |s| ==> between(s[i], s[j])
  }

  lemma PairwiseCons<T(!new)>(between: (T, T) -> bool, x: T, s: seq<T>)
    ensures Pairwise(between, [x] + s) <==> Pairwise(between, s) && forall y :: y in s ==> between(x, y)
  {
    var all := [x] + s;
    if Pairwise(between, all) {
      forall i, j | 0 <= i < j < |s| ensures between(s[i], s[j]) { assert s[i] == all[i + 1] && s[j] == all[j + 1]; }
      forall y | y in s ensures between(x, y) {
        var k :| 0 <= k < |s| && s[k] == y;
        assert all[0] == x && all[k + 1] == y;
      }
    }
  }

  // A relation between any two kept elements is one between any two elements that are kept.
  lemma {:induction false} PairwiseFilter<T(!new)>(p: T -> bool, between: (T, T) -> bool, kept: (T, T) -> bool,
          s: seq<T>)
    requires forall x, y :: kept(x, y) <==> (p(x) && p(y) ==> between(x, y))
    ensures Pairwise(between, Filter(p, s)) <==> Pairwise(kept, s)
  {
    if s != [] {
      hide Filter, Pairwise;
      var x, rest := s[0], s[1..];
      assert s == [x] + rest;
      PairwiseFilter(p, between, kept, rest);
      FilterCons(p, x, rest);
      FilterMembers(p, rest);
      PairwiseCons(kept, x, rest);
      PairwiseCons(between, x, Filter(p, rest));
    }
  }
}
