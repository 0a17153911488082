// The order entities are seeded in: a depth-first walk over the relation graph (runtime/seed.go).
module SeedOrder {
  import opened TextOrder

  type Name = string

  // An entity and the entities its relation fields refer to, in field order.
  datatype Entity = Entity(name: Name, refs: seq<Name>)

  type Graph = map<Name, seq<Name>>

  function RefsFrom(deps: Graph, n: Name): seq<Name> {
    if n in deps then deps[n] else []
  }

  predicate Edge(deps: Graph, a: Name, b: Name) {
    b in RefsFrom(deps, a)
  }

  // A walk along relations from its first entity to its last.
  ghost predicate Walk(deps: Graph, p: seq<Name>) {
    p != [] && forall i, j :: 0 <= i < |p| && j == i + 1 < |p| ==> Edge(deps, p[i], p[j])
  }

  ghost predicate Reaches(deps: Graph, a: Name, b: Name) {
    exists p :: Walk(deps, p) && p[0] == a && p[|p| - 1] == b
  }

  lemma ReachesSelf(deps: Graph, a: Name)
    ensures Reaches(deps, a, a)
  {
    assert Walk(deps, [a]);
  }

  lemma ReachesFurther(deps: Graph, a: Name, b: Name, c: Name)
    requires Reaches(deps, a, b) && Edge(deps, b, c)
    ensures Reaches(deps, a, c)
  {
    var p :| Walk(deps, p) && p[0] == a && p[|p| - 1] == b;
    assert Walk(deps, p + [c]);
  }

  ghost predicate NoRepeats(order: seq<Name>) {
    forall i, j :: 0 <= i < j < |order| ==> order[i] != order[j]
  }

  // Each listed entity comes after everything it refers to, save what refers back to it in a cycle.
  ghost predicate Topological(deps: Graph, order: seq<Name>) {
    forall i, d :: 0 <= i < |order| && Edge(deps, order[i], d) ==> d in order[..i] || Reaches(deps, d, order[i])
  }

  lemma NoRepeatsGrows(order: seq<Name>, n: Name)
    requires NoRepeats(order) && n !in order
    ensures NoRepeats(order + [n])
  {
  }

  lemma TopologicalGrows(deps: Graph, order: seq<Name>, n: Name)
    requires Topological(deps, order)
    requires forall d :: Edge(deps, n, d) ==> d in order || Reaches(deps, d, n)
    ensures Topological(deps, order + [n])
  {
    var now := order + [n];
    forall i, d | 0 <= i < |now| && Edge(deps, now[i], d) ensures d in now[..i] || Reaches(deps, d, now[i]) {
      if i < |order| {
        assert now[i] == order[i] && now[..i] == order[..i];
      } else {
        assert now[..i] == order;
      }
    }
  }

  // Insertion into a sorted list; with repeats kept this is sort.Strings.
  function InsertName(s: seq<Name>, n: Name): (r: seq<Name>)
    ensures multiset(r) == multiset(s) + multiset{n}
  {
    if s == [] then [n]
    else if LessText(s[0], n) then
      assert s == [s[0]] + s[1..];
      [s[0]] + InsertName(s[1..], n)
    else [n] + s
  }

  function SortNames(s: seq<Name>): (r: seq<Name>)
    ensures multiset(r) == multiset(s)
    ensures forall n :: n in r <==> n in s
  {
    if s == [] then []
    else
      assert s == [s[0]] + s[1..];
      var r := InsertName(SortNames(s[1..]), s[0]);
      assert forall n :: n in r <==> n in multiset(r);
      assert forall n :: n in s <==> n in multiset(s);
      r
  }

  ghost predicate Sorted(s: seq<Name>) {
    forall i, j :: 0 <= i < j < |s| ==> !LessText(s[j], s[i])
  }

  // The names come sorted.
  lemma {:induction false} NamesSorted(s: seq<Name>)
    ensures Sorted(SortNames(s))
  {
    if s != [] {
      NamesSorted(s[1..]);
      InsertSorted(SortNames(s[1..]), s[0]);
    }
  }

  lemma {:induction false} InsertSorted(s: seq<Name>, n: Name)
    requires Sorted(s)
    ensures Sorted(InsertName(s, n))
  {
    if s != [] {
      hide Sorted;
      var first, rest := s[0], s[1..];
      SortedRest(s);
      if LessText(first, n) {
        InsertSorted(rest, n);
        LessTextAsymmetric(first, n);
        forall x | x in InsertName(rest, n) ensures !LessText(x, first) { assert x in multiset(InsertName(rest, n)); }
        SortedCons(first, InsertName(rest, n));
      } else {
        forall x | x in s ensures !LessText(x, n) { NotBelow(n, first, x); }
        SortedCons(n, s);
      }
    }
  }

  lemma SortedRest(s: seq<Name>)
    requires s != [] && Sorted(s)
    ensures Sorted(s[1..]) && forall x :: x in s ==> x == s[0] || !LessText(x, s[0])
  {
  }

  lemma SortedCons(n: Name, s: seq<Name>)
    requires Sorted(s) && forall x :: x in s ==> !LessText(x, n)
    ensures Sorted([n] + s)
  {
  }

  lemma NotBelow(n: Name, a: Name, x: Name)
    requires !LessText(a, n) && (x == a || !LessText(x, a))
    ensures !LessText(x, n)
  {
    LessTextTotal(a, x);
    if LessText(a, x) && LessText(x, n) { LessTextTransitive(a, x, n); }
  }

  class Seeder {
    const deps: Graph
    var visited: set<Name>
    var order: seq<Name>

    constructor (graph: Graph)
      ensures deps == graph && visited == {} && order == []
    {
      deps, visited, order := graph, {}, [];
    }

    ghost predicate Valid()
      reads this
    {
      NoRepeats(order) && visited == (set n | n in order) && Topological(deps, order)
    }

    // `stack` holds the entities being visited; all of them lead here, so skipping one of them
    // is skipping a cycle.
    method Visit(n: Name, stack: set<Name>, ghost universe: set<Name>)
      requires Valid() && stack <= universe && n in universe
      requires forall a, b :: a in universe && Edge(deps, a, b) ==> b in universe
      requires forall s :: s in stack ==> Reaches(deps, s, n)
      modifies this
      ensures Valid() && old(order) <= order
      ensures n in order || n in stack
      ensures forall x :: x in order && x !in old(order) ==> x !in stack && Reaches(deps, n, x)
      decreases universe - stack
    {
      hide Topological, Reaches, NoRepeats;
      if n in visited || n in stack { return; }
      var refs := SortNames(RefsFrom(deps, n));
      ReachesSelf(deps, n);
      var i := 0;
      while i < |refs|
        invariant 0 <= i <= |refs| && Valid() && old(order) <= order
        invariant forall d :: d in refs[..i] ==> d in order || d in stack + {n}
        invariant forall x :: x in order && x !in old(order) ==> x !in stack + {n} && Reaches(deps, n, x)
      {
        var d := refs[i];
        assert Edge(deps, n, d);
        forall s | s in stack + {n} ensures Reaches(deps, s, d) { ReachesFurther(deps, s, n, d); }
        ghost var before := order;
        Visit(d, stack + {n}, universe);
        assert refs[..i + 1] == refs[..i] + [d];
        forall x | x in order && x !in old(order) ensures x !in stack + {n} && Reaches(deps, n, x) {
          if x !in before { ReachesThrough(deps, n, d, x); }
        }
        i := i + 1;
      }
      assert refs[..i] == refs;
      forall d | Edge(deps, n, d) ensures d in order || Reaches(deps, d, n) { assert d in refs; }
      TopologicalGrows(deps, order, n);
      NoRepeatsGrows(order, n);
      visited := visited + {n};
      order := order + [n];
    }
  }

  lemma ReachesThrough(deps: Graph, a: Name, b: Name, c: Name)
    requires Edge(deps, a, b) && Reaches(deps, b, c)
    ensures Reaches(deps, a, c)
  {
    var p :| Walk(deps, p) && p[0] == b && p[|p| - 1] == c;
    var q := [a] + p;
    forall i, j | 0 <= i < |q| && j == i + 1 < |q| ensures Edge(deps, q[i], q[j]) {
      if i > 0 { assert q[i] == p[i - 1] && q[j] == p[j - 1]; }
    }
    assert Walk(deps, q);
  }

  // ---- the graph and the whole order ----

  // A relation to the entity itself orders nothing.
  predicate Refers(entities: seq<Entity>, a: Name, b: Name) {
    a != b && exists e :: e in entities && e.name == a && b in e.refs
  }

  ghost predicate IsGraphOf(deps: Graph, entities: seq<Entity>) {
    forall a, b :: Edge(deps, a, b) <==> Refers(entities, a, b)
  }

  method BuildGraph(entities: seq<Entity>) returns (deps: Graph, names: seq<Name>)
    ensures IsGraphOf(deps, entities)
    ensures |names| == |entities| && forall i :: 0 <= i < |names| ==> names[i] == entities[i].name
  {
    hide IsGraphOf;
    deps, names := map[], [];
    NoGraph();
    var i := 0;
    while i < |entities|
      invariant 0 <= i <= |entities| && |names| == i
      invariant forall k :: 0 <= k < i ==> names[k] == entities[k].name
      invariant IsGraphOf(deps, entities[..i])
    {
      var e := entities[i];
      names := names + [e.name];
      GraphSame(deps, entities[..i], e.name);
      assert e.refs[..0] == [];
      var j := 0;
      while j < |e.refs|
        invariant 0 <= j <= |e.refs|
        invariant IsGraphOf(deps, entities[..i] + [Entity(e.name, e.refs[..j])])
      {
        ghost var was := deps;
        if e.refs[j] != e.name {
          deps := deps[e.name := RefsFrom(deps, e.name) + [e.refs[j]]];
        }
        GraphGrows(was, deps, entities[..i], e, j);
        j := j + 1;
      }
      assert e.refs[..j] == e.refs && entities[..i] + [e] == entities[..i + 1];
      i := i + 1;
    }
    assert entities[..i] == entities;
  }

  lemma NoGraph()
    ensures IsGraphOf(map[], [])
  {
  }

  lemma GraphSame(deps: Graph, done: seq<Entity>, n: Name)
    requires IsGraphOf(deps, done)
    ensures IsGraphOf(deps, done + [Entity(n, [])])
  {
    forall a, b ensures Refers(done, a, b) <==> Refers(done + [Entity(n, [])], a, b) {
      if e :| e in done + [Entity(n, [])] && e.name == a && b in e.refs { assert e in done; }
    }
  }

  lemma GraphGrows(was: Graph, now: Graph, done: seq<Entity>, e: Entity, j: nat)
    requires j < |e.refs| && IsGraphOf(was, done + [Entity(e.name, e.refs[..j])])
    requires now == if e.refs[j] == e.name then was else was[e.name := RefsFrom(was, e.name) + [e.refs[j]]]
    ensures IsGraphOf(now, done + [Entity(e.name, e.refs[..j + 1])])
  {
    var before, after := done + [Entity(e.name, e.refs[..j])], done + [Entity(e.name, e.refs[..j + 1])];
    forall a, b ensures Edge(now, a, b) <==> Refers(after, a, b) {
      assert Edge(was, a, b) <==> Refers(before, a, b);
      assert Edge(now, a, b) <==> Edge(was, a, b) || (a == e.name && b == e.refs[j] && a != b);
    }
  }

  method SeedOrder(entities: seq<Entity>) returns (order: seq<Name>)
    ensures NoRepeats(order)
    ensures forall e :: e in entities ==> e.name in order
    ensures (forall e, r :: e in entities && r in e.refs ==> exists d :: d in entities && d.name == r) ==>
      forall n :: n in order ==> exists e :: e in entities && e.name == n
    ensures exists deps :: IsGraphOf(deps, entities) && Topological(deps, order)
  {
    var deps, names := BuildGraph(entities);
    var seeder := new Seeder(deps);
    ghost var universe := (set n | n in names) + (set e, r | e in entities && r in e.refs :: r);
    var i := 0;
    while i < |names|
      invariant 0 <= i <= |names| && fresh(seeder) && seeder.deps == deps && seeder.Valid()
      invariant forall k :: 0 <= k < i ==> names[k] in seeder.order
      invariant forall n :: n in seeder.order ==> n in universe
    {
      ghost var before := seeder.order;
      seeder.Visit(names[i], {}, universe);
      forall n | n in seeder.order ensures n in universe {
        if n !in before { ReachesWithin(deps, names[i], n, universe); }
      }
      i := i + 1;
    }
    order := seeder.order;
    forall e | e in entities ensures e.name in order {
      var k :| 0 <= k < |entities| && entities[k] == e;
      assert names[k] in order;
    }
  }

  lemma ReachesWithin(deps: Graph, a: Name, b: Name, universe: set<Name>)
    requires Reaches(deps, a, b) && a in universe
    requires forall x, y :: x in universe && Edge(deps, x, y) ==> y in universe
    ensures b in universe
  {
    var p :| Walk(deps, p) && p[0] == a && p[|p| - 1] == b;
    var i := 0;
    while i < |p| - 1
      invariant 0 <= i < |p| && p[i] in universe
    {
      assert Edge(deps, p[i], p[i + 1]);
      i := i + 1;
    }
  }

  // Every entity follows all it refers to exactly when no listed entity is on a cycle.
  lemma AcyclicOrder(deps: Graph, order: seq<Name>)
    requires Topological(deps, order) && NoRepeats(order)
    ensures (forall i, d :: 0 <= i < |order| && Edge(deps, order[i], d) ==> d in order[..i])
      <==> (forall a, b :: a in order && Edge(deps, a, b) ==> !Reaches(deps, b, a))
  {
    hide Reaches;
    if forall i, d :: 0 <= i < |order| && Edge(deps, order[i], d) ==> d in order[..i] {
      forall a, b | a in order && Edge(deps, a, b) ensures !Reaches(deps, b, a) {
        var q :| 0 <= q < |order| && order[q] == a;
        var m :| 0 <= m < q && order[m] == b;
        if Reaches(deps, b, a) { ReachesEarlier(deps, order, m, a); }
      }
    }
  }

  // In an order that puts what is referred to first, what is reached comes no later.
  lemma ReachesEarlier(deps: Graph, order: seq<Name>, m: nat, b: Name)
    requires forall i, d :: 0 <= i < |order| && Edge(deps, order[i], d) ==> d in order[..i]
    requires m < |order| && Reaches(deps, order[m], b)
    ensures b in order[..m + 1]
  {
    var p :| Walk(deps, p) && p[0] == order[m] && p[|p| - 1] == b;
    assert order[..m + 1][m] == p[0];
    var i := 0;
    while i < |p| - 1
      invariant 0 <= i < |p| && p[i] in order[..m + 1]
    {
      var x :| 0 <= x < m + 1 && order[x] == p[i];
      assert Edge(deps, p[i], p[i + 1]);
      i := i + 1;
    }
  }
}
