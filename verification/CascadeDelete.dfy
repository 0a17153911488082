// The in-memory store's delete: a typed reference graph with cascade, setNull and restrict rules
// (runtime/memstore.go).
module CascadeDelete {

  type Entity = string
  type Field = string

  datatype OnDelete = Cascade | SetNull | Restrict

  // One relation: rows of `entity` hold a `parent` row's id in `field`.
  datatype Reference = Reference(entity: Entity, field: Field, parent: Entity, onDelete: OnDelete)

  datatype Value = Nil | Num(n: int)

  datatype Row = Row(id: int, fields: map<Field, Value>)

  datatype Key = Key(entity: Entity, id: int)

  // A relation together with a parent id whose references through it were cleared.
  datatype Cut = Cut(ref: Reference, id: int)

  type Rows = map<Entity, seq<Row>>

  function At(rows: Rows, e: Entity): seq<Row> {
    if e in rows then rows[e] else []
  }

  // What a relation field reads as: an absent or cleared field reads as 0.
  function Target(r: Row, f: Field): int {
    if f in r.fields && r.fields[f].Num? then r.fields[f].n else 0
  }

  // References come from the fields of the entities, so no two name the same field.
  ghost predicate DistinctFields(refs: seq<Reference>) {
    forall i, j :: 0 <= i < j < |refs| ==> refs[i].entity != refs[j].entity || refs[i].field != refs[j].field
  }

  // The row `r` of `ref.entity` refers to a key of `s` through `ref`.
  predicate Refers(r: Row, ref: Reference, s: set<Key>) {
    Key(ref.parent, Target(r, ref.field)) in s
  }

  // ---- what a delete should leave ----

  function CutFields(e: Entity, r: Row, cuts: set<Cut>): set<Field> {
    set c | c in cuts && c.ref.entity == e && Target(r, c.ref.field) == c.id :: c.ref.field
  }

  function Cleared(e: Entity, r: Row, cuts: set<Cut>): Row {
    Row(r.id, Blanked(r.fields, CutFields(e, r, cuts)))
  }

  function Blanked(fields: map<Field, Value>, blank: set<Field>): map<Field, Value> {
    fields + map f | f in blank :: Nil
  }

  // The rows outside `gone`, in order, with every cut reference cleared.
  function Survivors(e: Entity, rows: seq<Row>, gone: set<Key>, cuts: set<Cut>): seq<Row> {
    if rows == [] then []
    else
      (if Key(e, rows[0].id) in gone then [] else [Cleared(e, rows[0], cuts)]) + Survivors(e, rows[1..], gone, cuts)
  }

  // Every setNull reference to a key of `gone`.
  function Cuts(refs: seq<Reference>, gone: set<Key>): set<Cut> {
    set ref, k | ref in refs && ref.onDelete.SetNull? && k in gone && k.entity == ref.parent :: Cut(ref, k.id)
  }

  ghost predicate Leaves(before: Rows, after: Rows, gone: set<Key>, cuts: set<Cut>) {
    forall e: Entity :: At(after, e) == Survivors(e, At(before, e), gone, cuts)
  }

  // A row that refers to a key of `s` through a relation of kind `pick` is itself in `s`.
  ghost predicate Closed(rows: Rows, refs: seq<Reference>, s: set<Key>, withRestrict: bool) {
    forall ref, r :: ref in refs && r in At(rows, ref.entity) && Refers(r, ref, s) ==>
      ref.onDelete.Cascade? || (withRestrict && ref.onDelete.Restrict?) ==> Key(ref.entity, r.id) in s
  }

  function Keys(e: Entity, ids: set<int>): set<Key> {
    set i | i in ids :: Key(e, i)
  }

  // `gone` is the least set that holds the deleted ids and every row that reaches them.
  ghost predicate ReachedExactly(rows: Rows, refs: seq<Reference>, start: set<Key>, gone: set<Key>) {
    && start <= gone
    && Closed(rows, refs, gone, true)
    && (forall s: set<Key> :: start <= s && Closed(rows, refs, s, true) ==> gone <= s)
  }

  // ---- facts about survivors ----

  lemma {:induction false} SurvivorsOf(e: Entity, rows: seq<Row>, gone: set<Key>, cuts: set<Cut>, r: Row)
    ensures r in Survivors(e, rows, gone, cuts)
      <==> exists o :: o in rows && Key(e, o.id) !in gone && r == Cleared(e, o, cuts)
  {
    if rows != [] {
      SurvivorsOf(e, rows[1..], gone, cuts, r);
      assert rows == [rows[0]] + rows[1..];
      if exists o :: o in rows && Key(e, o.id) !in gone && r == Cleared(e, o, cuts) {
        var o :| o in rows && Key(e, o.id) !in gone && r == Cleared(e, o, cuts);
        if o != rows[0] { assert o in rows[1..]; }
      }
    }
  }

  lemma ClearedTwice(e: Entity, r: Row, c1: set<Cut>, c2: set<Cut>)
    ensures Cleared(e, Cleared(e, r, c1), c2) == Cleared(e, r, c1 + c2)
  {
    hide CutFields, Blanked;
    var m := Cleared(e, r, c1);
    forall f: Field
      ensures f in CutFields(e, r, c1) || f in CutFields(e, m, c2) <==> f in CutFields(e, r, c1 + c2)
    {
      CutFieldsTwice(e, r, c1, c2, f);
    }
    assert CutFields(e, r, c1) + CutFields(e, m, c2) == CutFields(e, r, c1 + c2);
    BlankedTwice(r.fields, CutFields(e, r, c1), CutFields(e, m, c2));
  }

  lemma BlankedTwice(fields: map<Field, Value>, a: set<Field>, b: set<Field>)
    ensures Blanked(Blanked(fields, a), b) == Blanked(fields, a + b)
  {
  }

  lemma CutFieldsTwice(e: Entity, r: Row, c1: set<Cut>, c2: set<Cut>, f: Field)
    ensures f in CutFields(e, r, c1) || f in CutFields(e, Cleared(e, r, c1), c2) <==> f in CutFields(e, r, c1 + c2)
  {
    if f !in CutFields(e, r, c1) {
      assert Target(Cleared(e, r, c1), f) == Target(r, f);
    }
  }

  lemma {:induction false} SurvivorsTwice(e: Entity, rows: seq<Row>, g1: set<Key>, c1: set<Cut>, g2: set<Key>,
          c2: set<Cut>)
    ensures Survivors(e, Survivors(e, rows, g1, c1), g2, c2) == Survivors(e, rows, g1 + g2, c1 + c2)
  {
    if rows != [] {
      SurvivorsTwice(e, rows[1..], g1, c1, g2, c2);
      ClearedTwice(e, rows[0], c1, c2);
      var rest := Survivors(e, rows[1..], g1, c1);
      if Key(e, rows[0].id) in g1 {
        assert Survivors(e, rows, g1, c1) == rest;
      } else {
        assert ([Cleared(e, rows[0], c1)] + rest)[1..] == rest;
      }
    }
  }

  lemma {:induction false} SurvivorsNone(e: Entity, rows: seq<Row>)
    ensures Survivors(e, rows, {}, {}) == rows
  {
    if rows != [] {
      SurvivorsNone(e, rows[1..]);
      assert Cleared(e, rows[0], {}).fields == rows[0].fields;
    }
  }

  lemma LeavesTwice(r0: Rows, r1: Rows, r2: Rows, g1: set<Key>, c1: set<Cut>, g2: set<Key>, c2: set<Cut>)
    requires Leaves(r0, r1, g1, c1) && Leaves(r1, r2, g2, c2)
    ensures Leaves(r0, r2, g1 + g2, c1 + c2)
  {
    forall e: Entity ensures At(r2, e) == Survivors(e, At(r0, e), g1 + g2, c1 + c2) {
      SurvivorsTwice(e, At(r0, e), g1, c1, g2, c2);
    }
  }

  // ---- what deletion keeps of the reference graph ----

  lemma {:induction false} DistinctByValue(refs: seq<Reference>, a: Reference, b: Reference)
    requires DistinctFields(refs) && a in refs && b in refs && a.entity == b.entity && a.field == b.field
    ensures a == b
  {
    var i :| 0 <= i < |refs| && refs[i] == a;
    var j :| 0 <= j < |refs| && refs[j] == b;
    if i < j { assert false; }
    if j < i { assert false; }
  }

  ghost predicate SetNullOnly(refs: seq<Reference>, cuts: set<Cut>) {
    forall c :: c in cuts ==> c.ref in refs && c.ref.onDelete.SetNull?
  }

  // Cutting setNull relations moves no cascade or restrict reference.
  lemma TargetKept(refs: seq<Reference>, r: Row, ref: Reference, cuts: set<Cut>)
    requires DistinctFields(refs) && ref in refs && !ref.onDelete.SetNull?
    requires SetNullOnly(refs, cuts)
    ensures Target(Cleared(ref.entity, r, cuts), ref.field) == Target(r, ref.field)
  {
    if ref.field in CutFields(ref.entity, r, cuts) {
      var c :| c in cuts && c.ref.entity == ref.entity && c.ref.field == ref.field;
      DistinctByValue(refs, c.ref, ref);
    }
  }

  // Every row still there came from a row that was there, with the same id and the same
  // cascade and restrict references.
  lemma SurvivorOrigin(refs: seq<Reference>, before: Rows, after: Rows, gone: set<Key>, cuts: set<Cut>, ref: Reference,
          r: Row) returns (o: Row)
    requires DistinctFields(refs) && ref in refs && !ref.onDelete.SetNull?
    requires Leaves(before, after, gone, cuts) && SetNullOnly(refs, cuts)
    requires r in At(after, ref.entity)
    ensures o in At(before, ref.entity) && o.id == r.id && Key(ref.entity, o.id) !in gone
    ensures Target(o, ref.field) == Target(r, ref.field)
  {
    SurvivorsOf(ref.entity, At(before, ref.entity), gone, cuts, r);
    o :| o in At(before, ref.entity) && Key(ref.entity, o.id) !in gone && r == Cleared(ref.entity, o, cuts);
    TargetKept(refs, o, ref, cuts);
  }

  lemma ClosedAfter(refs: seq<Reference>, before: Rows, after: Rows, gone: set<Key>, cuts: set<Cut>, s: set<Key>)
    requires DistinctFields(refs) && Leaves(before, after, gone, cuts) && SetNullOnly(refs, cuts)
    requires Closed(before, refs, s, true)
    ensures Closed(after, refs, s, true)
  {
    forall ref, r | ref in refs && r in At(after, ref.entity) && Refers(r, ref, s) && !ref.onDelete.SetNull?
      ensures Key(ref.entity, r.id) in s
    {
      var o := SurvivorOrigin(refs, before, after, gone, cuts, ref, r);
      assert Refers(o, ref, s);
    }
  }

  // No row refers to a key of `gone` through a cascade or restrict relation, except through a
  // relation still to be followed from the keys `k`.
  ghost predicate Unreferenced(rows: Rows, refs: seq<Reference>, gone: set<Key>, left: seq<Reference>, k: set<Key>) {
    forall ref, r :: ref in refs && r in At(rows, ref.entity) && Refers(r, ref, gone) && !ref.onDelete.SetNull? ==>
      ref in left && Refers(r, ref, k)
  }

  lemma UnreferencedAfter(refs: seq<Reference>, before: Rows, after: Rows, gone: set<Key>, cuts: set<Cut>, s: set<Key>,
          left: seq<Reference>, k: set<Key>)
    requires DistinctFields(refs) && Leaves(before, after, gone, cuts) && SetNullOnly(refs, cuts)
    requires Unreferenced(before, refs, s, left, k) && Unreferenced(after, refs, gone, [], {})
    ensures Unreferenced(after, refs, s + gone, left, k)
  {
    forall ref, r | ref in refs && r in At(after, ref.entity) && Refers(r, ref, s + gone) && !ref.onDelete.SetNull?
      ensures ref in left && Refers(r, ref, k)
    {
      var o := SurvivorOrigin(refs, before, after, gone, cuts, ref, r);
      if Refers(r, ref, gone) { assert false; }
      assert Refers(o, ref, s);
    }
  }

  // A set nothing left refers to was closed before the delete.
  lemma GoneClosed(refs: seq<Reference>, before: Rows, after: Rows, gone: set<Key>)
    requires DistinctFields(refs) && Leaves(before, after, gone, Cuts(refs, gone))
    requires Unreferenced(after, refs, gone, [], {})
    ensures Closed(before, refs, gone, true)
  {
    forall ref, r | ref in refs && r in At(before, ref.entity) && Refers(r, ref, gone) && !ref.onDelete.SetNull?
      ensures Key(ref.entity, r.id) in gone
    {
      if Key(ref.entity, r.id) !in gone {
        var kept := Cleared(ref.entity, r, Cuts(refs, gone));
        SurvivorsOf(ref.entity, At(before, ref.entity), gone, Cuts(refs, gone), kept);
        TargetKept(refs, r, ref, Cuts(refs, gone));
        assert Refers(kept, ref, gone);
        assert false;
      }
    }
  }

  // ---- the store ----

  function ChildrenOf(refs: seq<Reference>, parent: Entity): seq<Reference> {
    if refs == [] then []
    else (if refs[0].parent == parent then [refs[0]] else []) + ChildrenOf(refs[1..], parent)
  }

  lemma {:induction false} ChildrenOfSplit(refs: seq<Reference>, r: Reference, parent: Entity)
    ensures ChildrenOf(refs + [r], parent) == ChildrenOf(refs, parent) + if r.parent == parent then [r] else []
  {
    if refs == [] {
      assert [r][1..] == [];
    } else {
      ChildrenOfSplit(refs[1..], r, parent);
      assert (refs + [r])[1..] == refs[1..] + [r];
    }
  }

  lemma {:induction false} ChildrenOfMember(refs: seq<Reference>, r: Reference, parent: Entity)
    ensures r in ChildrenOf(refs, parent) <==> r in refs && r.parent == parent
  {
    if refs != [] {
      ChildrenOfMember(refs[1..], r, parent);
      assert refs == [refs[0]] + refs[1..];
    }
  }

  function Referencing(rows: seq<Row>, ref: Reference, ids: set<int>): set<int> {
    set r | r in rows && Target(r, ref.field) in ids :: r.id
  }

  function PresentKeys(rows: Rows): set<Key> {
    set e, r | e in rows && r in rows[e] :: Key(e, r.id)
  }

  // ---- restrict ----

  // Following cascade relations from `ids` ends within `n` steps.
  ghost predicate Bounded(rows: Rows, refs: seq<Reference>, e: Entity, ids: set<int>, n: nat)
    decreases n
  {
    forall ref ::
      ref in refs && ref.parent == e && ref.onDelete.Cascade? && Referencing(At(rows, ref.entity), ref, ids) != {} ==>
      n > 0 && Bounded(rows, refs, ref.entity, Referencing(At(rows, ref.entity), ref, ids), n - 1)
  }

  // `s` holds every row that reaches it by cascade, and no restrict relation refers to it, except
  // through a relation still to be followed from the keys `k`.
  ghost predicate Settled(rows: Rows, refs: seq<Reference>, s: set<Key>, left: seq<Reference>, k: set<Key>) {
    forall ref, r :: ref in refs && r in At(rows, ref.entity) && Refers(r, ref, s)
                     && !(ref in left && Refers(r, ref, k)) ==>
      && (ref.onDelete.Cascade? ==> Key(ref.entity, r.id) in s)
      && !ref.onDelete.Restrict?
  }

  // A restrict relation `ref` whose row `r` refers to something the delete would have to remove.
  ghost predicate Blocks(rows: Rows, refs: seq<Reference>, start: set<Key>, ref: Reference, r: Row) {
    && ref in refs && ref.onDelete.Restrict? && r in At(rows, ref.entity)
    && (forall s: set<Key> :: start <= s && Closed(rows, refs, s, false) ==> Refers(r, ref, s))
  }

  lemma NothingBlocks(rows: Rows, refs: seq<Reference>, start: set<Key>, seen: set<Key>)
    requires start <= seen && Settled(rows, refs, seen, [], {})
    ensures forall ref, r :: !Blocks(rows, refs, start, ref, r)
  {
    assert Closed(rows, refs, seen, false);
  }

  datatype Refusal = Refusal(parent: Entity, count: nat, ref: Reference)

  datatype Outcome = Deleted | Refused(why: Refusal)

  // A rank that falls along every cascade reference bounds the walk.
  lemma {:induction false} RankBounds(rows: Rows, refs: seq<Reference>, rank: Key -> int, e: Entity, ids: set<int>,
          n: nat)
    requires forall ref, r :: ref in refs && ref.onDelete.Cascade? && r in At(rows, ref.entity) ==>
      0 <= rank(Key(ref.entity, r.id)) < rank(Key(ref.parent, Target(r, ref.field)))
    requires forall i :: i in ids ==> rank(Key(e, i)) <= n
    ensures Bounded(rows, refs, e, ids, n)
    decreases n
  {
    forall ref | ref in refs && ref.parent == e && ref.onDelete.Cascade?
      && Referencing(At(rows, ref.entity), ref, ids) != {}
      ensures n > 0 && Bounded(rows, refs, ref.entity, Referencing(At(rows, ref.entity), ref, ids), n - 1)
    {
      var next := Referencing(At(rows, ref.entity), ref, ids);
      var i :| i in next;
      RankBounds(rows, refs, rank, ref.entity, next, n - 1);
    }
  }

  lemma BoundedStep(rows: Rows, refs: seq<Reference>, e: Entity, ids: set<int>, n: nat, ref: Reference)
    requires Bounded(rows, refs, e, ids, n) && ref in refs && ref.parent == e && ref.onDelete.Cascade?
    requires Referencing(At(rows, ref.entity), ref, ids) != {}
    ensures n > 0 && Bounded(rows, refs, ref.entity, Referencing(At(rows, ref.entity), ref, ids), n - 1)
  {
  }

  // A walk along cascade references: each row refers to the row before it.
  ghost predicate CascadeWalk(rows: Rows, refs: seq<Reference>, walk: seq<(Reference, Row)>) {
    && (forall i :: 0 <= i < |walk| ==> walk[i] in Links(rows, refs))
    && (forall i, j :: 0 <= i < |walk| && 0 <= j < |walk| && j == i + 1 ==>
          Key(walk[j].0.parent, Target(walk[j].1, walk[j].0.field)) == Key(walk[i].0.entity, walk[i].1.id))
  }

  // Every cascade relation with a row that holds a reference through it.
  ghost function Links(rows: Rows, refs: seq<Reference>): set<(Reference, Row)> {
    set ref, r | ref in refs && ref.onDelete.Cascade? && r in At(rows, ref.entity) :: (ref, r)
  }

  ghost predicate CascadeRing(rows: Rows, refs: seq<Reference>, ring: seq<(Reference, Row)>) {
    |ring| >= 2 && ring[0] == ring[|ring| - 1] && CascadeWalk(rows, refs, ring)
  }

  // The walk's first row refers to one of `ids`.
  predicate From(walk: seq<(Reference, Row)>, e: Entity, ids: set<int>) {
    walk != [] && walk[0].0.parent == e && Target(walk[0].1, walk[0].0.field) in ids
  }

  // A walk of cascade references from a row that refers to one of `ids` runs into a ring.
  ghost predicate MeetsRing(rows: Rows, refs: seq<Reference>, e: Entity, ids: set<int>) {
    exists walk, ring :: CascadeWalk(rows, refs, walk) && From(walk, e, ids)
      && CascadeRing(rows, refs, ring) && ring[0] == walk[|walk| - 1]
  }

  // From a deleted id that is on a ring the walk has no bound.
  lemma {:induction false} RingUnbounded(rows: Rows, refs: seq<Reference>, ring: seq<(Reference, Row)>, i: nat,
          ids: set<int>, n: nat)
    requires CascadeRing(rows, refs, ring) && i < |ring| && ring[i].1.id in ids
    ensures !Bounded(rows, refs, ring[i].0.entity, ids, n)
    decreases n
  {
    hide Bounded;
    if Bounded(rows, refs, ring[i].0.entity, ids, n) {
      var j := if i == |ring| - 1 then 1 else i + 1;
      var (ref, r) := ring[j];
      assert ring[j - 1] == ring[i];
      var next := Referencing(At(rows, ref.entity), ref, ids);
      assert r.id in next;
      BoundedStep(rows, refs, ring[i].0.entity, ids, n, ref);
      RingUnbounded(rows, refs, ring, j, next, n - 1);
    }
  }

  // Nor from one a walk leads from to a ring.
  lemma {:induction false} WalkUnbounded(rows: Rows, refs: seq<Reference>, walk: seq<(Reference, Row)>,
          ring: seq<(Reference, Row)>, e: Entity, ids: set<int>, n: nat)
    requires CascadeWalk(rows, refs, walk) && From(walk, e, ids)
    requires CascadeRing(rows, refs, ring) && ring[0] == walk[|walk| - 1]
    ensures !Bounded(rows, refs, e, ids, n)
    decreases n
  {
    hide Bounded;
    if Bounded(rows, refs, e, ids, n) {
      var (ref, r) := walk[0];
      var next := Referencing(At(rows, ref.entity), ref, ids);
      assert r.id in next;
      BoundedStep(rows, refs, e, ids, n, ref);
      if |walk| == 1 {
        RingUnbounded(rows, refs, ring, 0, next, n - 1);
      } else {
        WalkUnbounded(rows, refs, walk[1..], ring, ref.entity, next, n - 1);
      }
    }
  }

  // A walk can start one row earlier.
  lemma WalkBefore(rows: Rows, refs: seq<Reference>, ref: Reference, rest: seq<(Reference, Row)>, e: Entity,
          ids: set<int>) returns (walk: seq<(Reference, Row)>)
    requires ref in refs && ref.parent == e && ref.onDelete.Cascade? && CascadeWalk(rows, refs, rest)
    requires From(rest, ref.entity, Referencing(At(rows, ref.entity), ref, ids))
    ensures |walk| == |rest| + 1 && CascadeWalk(rows, refs, walk) && From(walk, e, ids)
  {
    var r :| r in At(rows, ref.entity) && Target(r, ref.field) in ids && r.id == Target(rest[0].1, rest[0].0.field);
    assert (ref, r) in Links(rows, refs);
    hide Links, Target, At;
    walk := [(ref, r)] + rest;
  }

  // A walk that does not end within `n` steps shows a walk of more than `n` rows.
  lemma {:induction false} LongWalk(rows: Rows, refs: seq<Reference>, e: Entity, ids: set<int>, n: nat)
          returns (walk: seq<(Reference, Row)>)
    requires !Bounded(rows, refs, e, ids, n)
    ensures |walk| == n + 1 && CascadeWalk(rows, refs, walk) && From(walk, e, ids)
    decreases n
  {
    var ref :| ref in refs && ref.parent == e && ref.onDelete.Cascade?
      && Referencing(At(rows, ref.entity), ref, ids) != {}
      && !(n > 0 && Bounded(rows, refs, ref.entity, Referencing(At(rows, ref.entity), ref, ids), n - 1));
    if n == 0 {
      var r := SomeReferring(rows, ref, ids);
      walk := [(ref, r)];
    } else {
      var rest := LongWalk(rows, refs, ref.entity, Referencing(At(rows, ref.entity), ref, ids), n - 1);
      walk := WalkBefore(rows, refs, ref, rest, e, ids);
    }
  }

  // More elements than the set has: one of them comes twice.
  lemma {:induction false} SomeTwice<T>(s: seq<T>, all: set<T>) returns (i: nat, j: nat)
    requires |s| > |all| && forall x :: x in s ==> x in all
    ensures i < j < |s| && s[i] == s[j]
    decreases |s|
  {
    if s[0] in s[1..] {
      i := 0;
      j :| 0 < j < |s| && s[j] == s[0];
    } else {
      i, j := SomeTwice(s[1..], all - {s[0]});
      i, j := i + 1, j + 1;
    }
  }

  // A walk that comes to a row twice runs into a ring.
  lemma TwiceIsRing(rows: Rows, refs: seq<Reference>, walk: seq<(Reference, Row)>, i: nat, j: nat, e: Entity,
          ids: set<int>)
    requires CascadeWalk(rows, refs, walk) && From(walk, e, ids) && i < j < |walk| && walk[i] == walk[j]
    ensures MeetsRing(rows, refs, e, ids)
  {
    hide Links;
    assert CascadeWalk(rows, refs, walk[..i + 1]) && From(walk[..i + 1], e, ids)
      && CascadeRing(rows, refs, walk[i..j + 1]);
    assert walk[i..j + 1][0] == walk[..i + 1][i];
  }

  lemma EndsWithin(rows: Rows, refs: seq<Reference>, e: Entity, ids: set<int>)
    ensures Bounded(rows, refs, e, ids, |Links(rows, refs)|) || MeetsRing(rows, refs, e, ids)
  {
    hide MeetsRing;
    if !Bounded(rows, refs, e, ids, |Links(rows, refs)|) {
      var walk := LongWalk(rows, refs, e, ids, |Links(rows, refs)|);
      var i, j := SomeTwice(walk, Links(rows, refs));
      TwiceIsRing(rows, refs, walk, i, j, e, ids);
    }
  }

  lemma NoRingWithin(rows: Rows, refs: seq<Reference>, e: Entity, ids: set<int>, n: nat)
    requires Bounded(rows, refs, e, ids, n)
    ensures !MeetsRing(rows, refs, e, ids)
  {
    hide Bounded;
    forall walk, ring | CascadeWalk(rows, refs, walk) && From(walk, e, ids)
      ensures !(CascadeRing(rows, refs, ring) && ring[0] == walk[|walk| - 1])
    {
      if CascadeRing(rows, refs, ring) && ring[0] == walk[|walk| - 1] {
        WalkUnbounded(rows, refs, walk, ring, e, ids, n);
      }
    }
  }

  // Following every cascade reference down ends exactly when none of the walks runs into a ring.
  lemma EndsUnlessRing(rows: Rows, refs: seq<Reference>, e: Entity, ids: set<int>)
    ensures (exists n: nat :: Bounded(rows, refs, e, ids, n)) <==> !MeetsRing(rows, refs, e, ids)
  {
    EndsWithin(rows, refs, e, ids);
    forall n: nat | Bounded(rows, refs, e, ids, n) ensures !MeetsRing(rows, refs, e, ids) {
      NoRingWithin(rows, refs, e, ids, n);
    }
  }

  // ---- the restrict walk, which a refusal ends ----

  datatype Visited = CutOff | Ended(out: Outcome)

  // checkRestrict over the relations `left`, cut off when it would go more than `n` levels down.
  function Visit(rows: Rows, refs: seq<Reference>, ids: set<int>, left: seq<Reference>, n: nat): Visited
    decreases n, |left|
  {
    if left == [] then Ended(Deleted)
    else
      var ch := left[0];
      var referring := Referencing(At(rows, ch.entity), ch, ids);
      if referring == {} || ch.onDelete.SetNull? then Visit(rows, refs, ids, left[1..], n)
      else if ch.onDelete.Restrict? then Ended(Refused(Refusal(ch.parent, |referring|, ch)))
      else if n == 0 then CutOff
      else
        var below := Visit(rows, refs, referring, ChildrenOf(refs, ch.entity), n - 1);
        if below == Ended(Deleted) then Visit(rows, refs, ids, left[1..], n) else below
  }

  // `out` is what checkRestrict answers.
  ghost predicate ChecksTo(rows: Rows, refs: seq<Reference>, e: Entity, ids: set<int>, out: Outcome) {
    exists n: nat :: Visit(rows, refs, ids, ChildrenOf(refs, e), n) == Ended(out)
  }

  lemma VisitNone(rows: Rows, refs: seq<Reference>, ids: set<int>, n: nat)
    ensures Visit(rows, refs, ids, [], n) == Ended(Deleted)
  {
  }

  // One relation on.
  lemma VisitOn(rows: Rows, refs: seq<Reference>, ids: set<int>, left: seq<Reference>, n: nat)
    requires left != []
    ensures var ch := left[0];
      var referring := Referencing(At(rows, ch.entity), ch, ids);
      var rest := Visit(rows, refs, ids, left[1..], n);
      Visit(rows, refs, ids, left, n) ==
        if referring == {} || ch.onDelete.SetNull? then rest
        else if ch.onDelete.Restrict? then Ended(Refused(Refusal(ch.parent, |referring|, ch)))
        else if n == 0 then CutOff
        else
          var below := Visit(rows, refs, referring, ChildrenOf(refs, ch.entity), n - 1);
          if below == Ended(Deleted) then rest else below
  {
  }

  // One level of relations, first to last: those before the one at `ks[0]` lead to no ring, and that one
  // refuses, or leads down to one that is refused so.
  ghost predicate RefusedFirst(rows: Rows, refs: seq<Reference>, ids: set<int>, left: seq<Reference>, ks: seq<nat>)
    decreases |ks|
  {
    && ks != [] && ks[0] < |left|
    && (forall j: nat :: j < ks[0] ==> RingFree(rows, refs, ids, left[j]))
    && var ch := left[ks[0]]; var referring := Referencing(At(rows, ch.entity), ch, ids);
       && referring != {}
       && (if |ks| == 1 then ch.onDelete.Restrict?
           else ch.onDelete.Cascade? && RefusedFirst(rows, refs, referring, ChildrenOf(refs, ch.entity), ks[1..]))
  }

  // No walk through the relation, if it is a cascade, runs into a ring.
  ghost predicate RingFree(rows: Rows, refs: seq<Reference>, ids: set<int>, ch: Reference) {
    var referring := Referencing(At(rows, ch.entity), ch, ids);
    ch.onDelete.Cascade? && referring != {} ==> !MeetsRing(rows, refs, ch.entity, referring)
  }

  // The exact condition: no ring, or a refusal met before any.
  ghost predicate CheckEnds(rows: Rows, refs: seq<Reference>, e: Entity, ids: set<int>) {
    !MeetsRing(rows, refs, e, ids) || exists ks :: RefusedFirst(rows, refs, ids, ChildrenOf(refs, e), ks)
  }

  lemma {:induction false} VisitFurther(rows: Rows, refs: seq<Reference>, ids: set<int>, left: seq<Reference>, n: nat,
          m: nat)
    requires n <= m && Visit(rows, refs, ids, left, n) != CutOff
    ensures Visit(rows, refs, ids, left, m) == Visit(rows, refs, ids, left, n)
    decreases n, |left|
  {
    hide Referencing, At, ChildrenOf;
    if left != [] {
      var ch := left[0];
      var referring := Referencing(At(rows, ch.entity), ch, ids);
      if referring == {} || ch.onDelete.SetNull? {
        VisitFurther(rows, refs, ids, left[1..], n, m);
      } else if ch.onDelete.Cascade? {
        VisitFurther(rows, refs, referring, ChildrenOf(refs, ch.entity), n - 1, m - 1);
        if Visit(rows, refs, referring, ChildrenOf(refs, ch.entity), n - 1) == Ended(Deleted) {
          VisitFurther(rows, refs, ids, left[1..], n, m);
        }
      }
    }
  }

  // Every relation of `left` is bounded below.
  ghost predicate BoundedAll(rows: Rows, refs: seq<Reference>, ids: set<int>, left: seq<Reference>, n: nat) {
    forall ch :: ch in left && ch.onDelete.Cascade? && Referencing(At(rows, ch.entity), ch, ids) != {} ==>
      n > 0 && Bounded(rows, refs, ch.entity, Referencing(At(rows, ch.entity), ch, ids), n - 1)
  }

  lemma BoundedChildren(rows: Rows, refs: seq<Reference>, e: Entity, ids: set<int>, n: nat)
    ensures Bounded(rows, refs, e, ids, n) <==> BoundedAll(rows, refs, ids, ChildrenOf(refs, e), n)
  {
    forall ch ensures ch in ChildrenOf(refs, e) <==> ch in refs && ch.parent == e { ChildrenOfMember(refs, ch, e); }
  }

  lemma {:induction false} BoundedEnds(rows: Rows, refs: seq<Reference>, ids: set<int>, left: seq<Reference>, n: nat)
    requires BoundedAll(rows, refs, ids, left, n)
    ensures Visit(rows, refs, ids, left, n) != CutOff
    decreases n, |left|
  {
    hide Bounded, Referencing, At, ChildrenOf;
    if left != [] {
      var ch := left[0];
      var referring := Referencing(At(rows, ch.entity), ch, ids);
      BoundedEnds(rows, refs, ids, left[1..], n);
      if referring != {} && ch.onDelete.Cascade? {
        BoundedChildren(rows, refs, ch.entity, referring, n - 1);
        BoundedEnds(rows, refs, referring, ChildrenOf(refs, ch.entity), n - 1);
      }
    }
  }

  lemma {:induction false} PassedBounded(rows: Rows, refs: seq<Reference>, ids: set<int>, left: seq<Reference>, n: nat)
    requires Visit(rows, refs, ids, left, n) == Ended(Deleted)
    ensures BoundedAll(rows, refs, ids, left, n)
    decreases n, |left|
  {
    hide Bounded, Referencing, At, ChildrenOf;
    if left != [] {
      var ch := left[0];
      var referring := Referencing(At(rows, ch.entity), ch, ids);
      PassedBounded(rows, refs, ids, left[1..], n);
      if referring != {} && ch.onDelete.Cascade? {
        PassedBounded(rows, refs, referring, ChildrenOf(refs, ch.entity), n - 1);
        BoundedChildren(rows, refs, ch.entity, referring, n - 1);
      }
      assert left == [ch] + left[1..];
    }
  }

  // A refusal shows the relations that led to it, with no ring beside them.
  lemma {:induction false} HitPath(rows: Rows, refs: seq<Reference>, ids: set<int>, left: seq<Reference>, n: nat)
          returns (ks: seq<nat>)
    requires var v := Visit(rows, refs, ids, left, n); v.Ended? && v.out.Refused?
    ensures RefusedFirst(rows, refs, ids, left, ks)
    decreases n, |left|
  {
    hide MeetsRing, Bounded, Referencing, At, ChildrenOf;
    var ch := left[0];
    var referring := Referencing(At(rows, ch.entity), ch, ids);
    if referring != {} && ch.onDelete.Restrict? {
      return [0];
    }
    if referring != {} && ch.onDelete.Cascade? {
      var below := ChildrenOf(refs, ch.entity);
      if Visit(rows, refs, referring, below, n - 1) != Ended(Deleted) {
        var deeper := HitPath(rows, refs, referring, below, n - 1);
        ks := [0] + deeper;
        assert ks[1..] == deeper;
        return;
      }
      PassedBounded(rows, refs, referring, below, n - 1);
      BoundedChildren(rows, refs, ch.entity, referring, n - 1);
      NoRingWithin(rows, refs, ch.entity, referring, n - 1);
    }
    var later := HitPath(rows, refs, ids, left[1..], n);
    ks := RefusedLater(rows, refs, ids, left, later);
  }

  // A refusal counts the rows that refer, through a restrict relation, to some of the rows that would go.
  lemma {:induction false} RefusalCounts(rows: Rows, refs: seq<Reference>, ids: set<int>, left: seq<Reference>, n: nat)
          returns (going: set<int>)
    requires var v := Visit(rows, refs, ids, left, n); v.Ended? && v.out.Refused?
    ensures var why := Visit(rows, refs, ids, left, n).out.why;
      && why.ref.onDelete.Restrict? && why.parent == why.ref.parent
      && why.count == |set r | r in At(rows, why.ref.entity) && Target(r, why.ref.field) in going :: r.id| > 0
    decreases n, |left|
  {
    hide At, Target, ChildrenOf;
    var ch := left[0];
    var referring := Referencing(At(rows, ch.entity), ch, ids);
    if referring != {} && ch.onDelete.Restrict? { return ids; }
    if referring != {} && ch.onDelete.Cascade? {
      var below := ChildrenOf(refs, ch.entity);
      if Visit(rows, refs, referring, below, n - 1) != Ended(Deleted) {
        going := RefusalCounts(rows, refs, referring, below, n - 1);
        return;
      }
    }
    going := RefusalCounts(rows, refs, ids, left[1..], n);
  }

  lemma RefusedLater(rows: Rows, refs: seq<Reference>, ids: set<int>, left: seq<Reference>, later: seq<nat>)
          returns (ks: seq<nat>)
    requires left != [] && RingFree(rows, refs, ids, left[0]) && RefusedFirst(rows, refs, ids, left[1..], later)
    ensures RefusedFirst(rows, refs, ids, left, ks)
  {
    hide MeetsRing, RingFree;
    ks := [later[0] + 1] + later[1..];
    assert ks[1..] == later[1..] && left[ks[0]] == left[1..][later[0]];
    forall j: nat | j < ks[0] ensures RingFree(rows, refs, ids, left[j]) {
      if j > 0 { assert left[j] == left[1..][j - 1]; }
    }
  }

  // And relations that lead to a refusal so do end the walk with one.
  lemma {:induction false} RefusedHits(rows: Rows, refs: seq<Reference>, ids: set<int>, left: seq<Reference>,
          ks: seq<nat>) returns (n: nat)
    requires RefusedFirst(rows, refs, ids, left, ks)
    ensures var v := Visit(rows, refs, ids, left, n); v.Ended? && v.out.Refused?
    decreases |ks|, |left|
  {
    hide MeetsRing, Bounded, Referencing, At, ChildrenOf;
    var ch := left[0];
    var referring := Referencing(At(rows, ch.entity), ch, ids);
    var below := ChildrenOf(refs, ch.entity);
    if referring != {} && ch.onDelete.Restrict? {
      return 0;
    }
    if ks[0] == 0 {
      var deeper := RefusedHits(rows, refs, referring, below, ks[1..]);
      return deeper + 1;
    }
    RefusedSooner(rows, refs, ids, left, ks);
    var rest := RefusedHits(rows, refs, ids, left[1..], RefusedBefore(ks));
    if referring == {} || ch.onDelete.SetNull? {
      return rest;
    }
    assert RingFree(rows, refs, ids, left[0]);
    EndsWithin(rows, refs, ch.entity, referring);
    var b := |Links(rows, refs)|;
    BoundedChildren(rows, refs, ch.entity, referring, b);
    BoundedEnds(rows, refs, referring, below, b);
    n := if rest > b + 1 then rest else b + 1;
    VisitFurther(rows, refs, referring, below, b, n - 1);
    VisitFurther(rows, refs, ids, left[1..], rest, n);
  }

  function RefusedBefore(ks: seq<nat>): seq<nat>
    requires ks != [] && ks[0] > 0
  {
    [ks[0] - 1] + ks[1..]
  }

  lemma RefusedSooner(rows: Rows, refs: seq<Reference>, ids: set<int>, left: seq<Reference>, ks: seq<nat>)
    requires RefusedFirst(rows, refs, ids, left, ks) && ks[0] > 0
    ensures RefusedFirst(rows, refs, ids, left[1..], RefusedBefore(ks))
  {
    hide MeetsRing, RingFree;
    var sooner := RefusedBefore(ks);
    assert sooner[1..] == ks[1..] && left[1..][sooner[0]] == left[ks[0]];
    forall j: nat | j < sooner[0] ensures RingFree(rows, refs, ids, left[1..][j]) {
      assert left[1..][j] == left[j + 1];
    }
  }

  // checkRestrict ends exactly when no cascade walk from the deleted ids runs into a ring, or its walk
  // comes to a refusal before any.
  lemma EndsExactly(rows: Rows, refs: seq<Reference>, e: Entity, ids: set<int>)
    ensures (exists n: nat :: Visit(rows, refs, ids, ChildrenOf(refs, e), n) != CutOff)
      <==> CheckEnds(rows, refs, e, ids)
  {
    hide MeetsRing, RefusedFirst, Visit;
    var left := ChildrenOf(refs, e);
    if CheckEnds(rows, refs, e, ids) {
      var n := SomeLevels(rows, refs, e, ids);
    }
    forall n: nat | Visit(rows, refs, ids, left, n) != CutOff ensures CheckEnds(rows, refs, e, ids) {
      EndedChecks(rows, refs, e, ids, n);
    }
  }

  lemma EndedChecks(rows: Rows, refs: seq<Reference>, e: Entity, ids: set<int>, n: nat)
    requires Visit(rows, refs, ids, ChildrenOf(refs, e), n) != CutOff
    ensures CheckEnds(rows, refs, e, ids)
  {
    hide MeetsRing, RefusedFirst, Visit, Bounded;
    if Visit(rows, refs, ids, ChildrenOf(refs, e), n).out.Refused? {
      var ks := HitPath(rows, refs, ids, ChildrenOf(refs, e), n);
    } else {
      PassedBounded(rows, refs, ids, ChildrenOf(refs, e), n);
      BoundedChildren(rows, refs, e, ids, n);
      NoRingWithin(rows, refs, e, ids, n);
    }
  }

  lemma SomeLevels(rows: Rows, refs: seq<Reference>, e: Entity, ids: set<int>) returns (n: nat)
    requires CheckEnds(rows, refs, e, ids)
    ensures Visit(rows, refs, ids, ChildrenOf(refs, e), n) != CutOff
  {
    hide MeetsRing, RefusedFirst, Visit, Bounded;
    if !MeetsRing(rows, refs, e, ids) {
      n := |Links(rows, refs)|;
      EndsWithin(rows, refs, e, ids);
      BoundedChildren(rows, refs, e, ids, n);
      BoundedEnds(rows, refs, ids, ChildrenOf(refs, e), n);
    } else {
      var ks :| RefusedFirst(rows, refs, ids, ChildrenOf(refs, e), ks);
      n := RefusedHits(rows, refs, ids, ChildrenOf(refs, e), ks);
    }
  }

  lemma TwoChildren(r1: Reference, r2: Reference, e: Entity)
    requires r1.parent == e && r2.parent == e
    ensures ChildrenOf([r1, r2], e) == [r1, r2]
  {
    assert [r1, r2][1..] == [r2] && [r2][1..] == [];
    assert ChildrenOf([r2], e) == [r2] + ChildrenOf([], e);
  }

  // A refusal can come before a ring: the deleted row is above itself, but a row that bars it is met first.
  lemma RefusedBeforeRing(rows: Rows, barred: Reference, up: Reference, a: Row, p: Row)
    requires barred.onDelete.Restrict? && a in At(rows, barred.entity) && Target(a, barred.field) == p.id
    requires up.onDelete.Cascade? && up.entity == up.parent == barred.parent
    requires p in At(rows, up.entity) && Target(p, up.field) == p.id
    ensures MeetsRing(rows, [barred, up], up.parent, {p.id}) && CheckEnds(rows, [barred, up], up.parent, {p.id})
    ensures var v := Visit(rows, [barred, up], {p.id}, ChildrenOf([barred, up], up.parent), 0);
      v.Ended? && v.out.Refused? && v.out.why.ref == barred
  {
    var refs := [barred, up];
    assert refs[0] == barred && refs[1] == up;
    TwoChildren(barred, up, up.parent);
    hide ChildrenOf;
    assert a.id in Referencing(At(rows, barred.entity), barred, {p.id});
    assert RefusedFirst(rows, refs, {p.id}, [barred, up], [0]);
    var link := (up, p);
    assert link in Links(rows, refs);
    assert CascadeWalk(rows, refs, [link]) && From([link], up.parent, {p.id}) && CascadeRing(rows, refs, [link, link]);
    assert [link, link][0] == [link][|[link]| - 1];
  }

  // How many levels down checkRestrict goes.
  ghost function Levels(rows: Rows, refs: seq<Reference>, e: Entity, ids: set<int>): (n: nat)
    requires CheckEnds(rows, refs, e, ids)
    ensures Visit(rows, refs, ids, ChildrenOf(refs, e), n) != CutOff
    ensures forall m: nat :: m < n ==> Visit(rows, refs, ids, ChildrenOf(refs, e), m) == CutOff
  {
    EndsExactly(rows, refs, e, ids);
    var n: nat :| Visit(rows, refs, ids, ChildrenOf(refs, e), n) != CutOff;
    LeastLevels(rows, refs, ids, ChildrenOf(refs, e), n)
  }

  ghost function LeastLevels(rows: Rows, refs: seq<Reference>, ids: set<int>, left: seq<Reference>,
          n: nat): (least: nat)
    requires Visit(rows, refs, ids, left, n) != CutOff
    ensures Visit(rows, refs, ids, left, least) != CutOff
    ensures forall m: nat :: m < least ==> Visit(rows, refs, ids, left, m) == CutOff
  {
    if m: nat :| m < n && Visit(rows, refs, ids, left, m) != CutOff then LeastLevels(rows, refs, ids, left, m) else n
  }

  // A relation the walk comes to: below it the walk ends too, fewer levels down.
  lemma LevelsFall(rows: Rows, refs: seq<Reference>, e: Entity, ids: set<int>, left: seq<Reference>)
    requires CheckEnds(rows, refs, e, ids) && left != [] && left[0].onDelete.Cascade?
    requires var n := Levels(rows, refs, e, ids);
      Visit(rows, refs, ids, left, n) == Visit(rows, refs, ids, ChildrenOf(refs, e), n)
    requires Referencing(At(rows, left[0].entity), left[0], ids) != {}
    ensures var next, n := Referencing(At(rows, left[0].entity), left[0], ids), Levels(rows, refs, e, ids);
      && CheckEnds(rows, refs, left[0].entity, next) && Levels(rows, refs, left[0].entity, next) < n
      && Visit(rows, refs, next, ChildrenOf(refs, left[0].entity), Levels(rows, refs, left[0].entity, next))
         == Visit(rows, refs, next, ChildrenOf(refs, left[0].entity), n - 1)
  {
    hide CheckEnds, Visit, Referencing, At, ChildrenOf;
    var ch, n := left[0], Levels(rows, refs, e, ids);
    VisitOn(rows, refs, ids, left, n);
    var next := Referencing(At(rows, ch.entity), ch, ids);
    EndedChecks(rows, refs, ch.entity, next, n - 1);
    VisitFurther(rows, refs, next, ChildrenOf(refs, ch.entity), Levels(rows, refs, ch.entity, next), n - 1);
  }

  function ChildrenIn(children: map<Entity, seq<Reference>>, e: Entity): seq<Reference> {
    if e in children then children[e] else []
  }

  ghost predicate Grouped(children: map<Entity, seq<Reference>>, refs: seq<Reference>) {
    forall e: Entity :: ChildrenIn(children, e) == ChildrenOf(refs, e)
  }

  lemma GroupStep(children: map<Entity, seq<Reference>>, refs: seq<Reference>, r: Reference)
    requires Grouped(children, refs)
    ensures Grouped(children[r.parent := ChildrenIn(children, r.parent) + [r]], refs + [r])
  {
    forall e: Entity
      ensures ChildrenIn(children[r.parent := ChildrenIn(children, r.parent) + [r]], e) == ChildrenOf(refs + [r], e)
    {
      ChildrenOfSplit(refs, r, e);
      assert ChildrenIn(children, e) == ChildrenOf(refs, e);
    }
  }

  class MemStore {
    var refs: seq<Reference>
    var children: map<Entity, seq<Reference>>
    var rows: Rows

    ghost predicate Valid()
      reads this
    {
      && DistinctFields(refs)
      && Grouped(children, refs)
    }

    // Init: group the relation graph by parent.
    constructor (graph: seq<Reference>)
      requires DistinctFields(graph)
      ensures Valid() && refs == graph && rows == map[]
    {
      refs, children, rows := graph, map[], map[];
      new;
      var i := 0;
      while i < |graph|
        invariant 0 <= i <= |graph| && refs == graph && rows == map[]
        invariant Grouped(children, graph[..i])
      {
        var r := graph[i];
        GroupStep(children, graph[..i], r);
        assert graph[..i + 1] == graph[..i] + [r];
        children := children[r.parent := ChildrenIn(children, r.parent) + [r]];
        i := i + 1;
      }
      assert graph[..i] == graph;
    }

    method CheckRestrict(entity: Entity, ids: set<int>) returns (out: Outcome, ghost seen: set<Key>, ghost row: Row)
      requires Valid() && CheckEnds(rows, refs, entity, ids)
      ensures out.Refused? <==> exists ref, r :: Blocks(rows, refs, Keys(entity, ids), ref, r)
      ensures out.Refused? ==> Blocks(rows, refs, Keys(entity, ids), out.why.ref, row)
      ensures Visit(rows, refs, ids, ChildrenOf(refs, entity), Levels(rows, refs, entity, ids)) == Ended(out)
      ensures out.Deleted? ==> Keys(entity, ids) <= seen && Settled(rows, refs, seen, [], {})
      decreases Levels(rows, refs, entity, ids)
    {
      hide CheckEnds, Visit, Settled, Blocks, ChildrenOf, DistinctFields, Referencing;
      ghost var n := Levels(rows, refs, entity, ids);
      var below := ChildrenIn(children, entity);
      seen, row := Keys(entity, ids), Row(0, map[]);
      SettledStart(rows, refs, entity, ids);
      var i := 0;
      while i < |below|
        invariant 0 <= i <= |below|
        invariant Keys(entity, ids) <= seen
        invariant Settled(rows, refs, seen, below[i..], Keys(entity, ids))
        invariant Visit(rows, refs, ids, below[i..], n) == Visit(rows, refs, ids, below, n)
      {
        var ch := below[i];
        ChildrenOfMember(refs, ch, entity);
        assert below[i..] == [ch] + below[i + 1..];
        VisitOn(rows, refs, ids, below[i..], n);
        assert ch in below && ch in refs && ch.parent == entity;
        var referring := Referencing(At(rows, ch.entity), ch, ids);
        ghost var under: set<Key> := {};
        SettledEmpty(rows, refs);
        if referring != {} {
          if ch.onDelete.Restrict? {
            row := SomeReferring(rows, ch, ids);
            BlocksHere(rows, refs, entity, ids, ch, row);
            return Refused(Refusal(entity, |referring|, ch)), seen, row;
          }
          if ch.onDelete.Cascade? {
            LevelsFall(rows, refs, entity, ids, below[i..]);
            var deeper, found, at := CheckRestrict(ch.entity, referring);
            if deeper.Refused? {
              BlocksAbove(rows, refs, entity, ids, ch, deeper.why.ref, at);
              return deeper, seen, at;
            }
            under := found;
          }
        }
        SettledStep(rows, refs, seen, ch, below[i + 1..], entity, ids, under);
        seen := seen + under;
        i := i + 1;
      }
      VisitNone(rows, refs, ids, n);
      SettledDone(rows, refs, seen, below[i..], Keys(entity, ids));
      NothingBlocks(rows, refs, Keys(entity, ids), seen);
      out := Deleted;
    }

    // The ids of the rows of `ref.entity` that refer to `ids`.
    method ReferringIds(ref: Reference, ids: set<int>) returns (out: set<int>)
      ensures out == Referencing(At(rows, ref.entity), ref, ids)
    {
      var all := At(rows, ref.entity);
      out := {};
      var i := 0;
      while i < |all|
        invariant 0 <= i <= |all|
        invariant out == Referencing(all[..i], ref, ids)
      {
        assert all[..i + 1] == all[..i] + [all[i]];
        if Target(all[i], ref.field) in ids {
          out := out + {all[i].id};
        }
        i := i + 1;
      }
      assert all[..i] == all;
    }

    method RemoveRows(entity: Entity, ids: set<int>)
      modifies this`rows
      ensures Leaves(old(rows), rows, Keys(entity, ids), {})
      ensures PresentKeys(rows) == PresentKeys(old(rows)) - Keys(entity, ids)
    {
      var all := At(rows, entity);
      var kept := [];
      var i := 0;
      while i < |all|
        invariant 0 <= i <= |all| && rows == old(rows)
        invariant kept == Survivors(entity, all[..i], Keys(entity, ids), {})
      {
        assert all[..i + 1] == all[..i] + [all[i]];
        SurvivorsSnoc(entity, all[..i], all[i], Keys(entity, ids), {});
        NothingCleared(entity, all[i]);
        if all[i].id !in ids {
          kept := kept + [all[i]];
        }
        i := i + 1;
      }
      assert all[..i] == all;
      ghost var was := rows;
      rows := rows[entity := kept];
      forall e: Entity ensures At(rows, e) == Survivors(e, At(was, e), Keys(entity, ids), {}) {
        if e == entity {
          assert At(rows, e) == kept;
        } else {
          SurvivorsAlien(e, At(was, e), Keys(entity, ids));
        }
      }
      PresentAfter(was, rows, Keys(entity, ids), {});
    }

    // The setNull rule: the referring rows stay and their reference is cleared.
    method ClearReferences(ref: Reference, ids: set<int>)
      modifies this`rows
      ensures Leaves(old(rows), rows, {}, CutsOf(ref, ids))
      ensures PresentKeys(rows) == PresentKeys(old(rows))
    {
      var all := At(rows, ref.entity);
      var i := 0;
      var done := [];
      while i < |all|
        invariant 0 <= i <= |all| && rows == old(rows)
        invariant done == Survivors(ref.entity, all[..i], {}, CutsOf(ref, ids))
      {
        assert all[..i + 1] == all[..i] + [all[i]];
        SurvivorsSnoc(ref.entity, all[..i], all[i], {}, CutsOf(ref, ids));
        var r := all[i];
        ClearedByOne(ref, r, ids);
        if Target(r, ref.field) in ids {
          r := Row(r.id, r.fields[ref.field := Nil]);
        }
        done := done + [r];
        i := i + 1;
      }
      assert all[..i] == all;
      ghost var was := rows;
      rows := rows[ref.entity := done];
      forall e: Entity ensures At(rows, e) == Survivors(e, At(was, e), {}, CutsOf(ref, ids)) {
        if e == ref.entity {
          assert At(rows, e) == done;
        } else {
          SurvivorsUncut(e, At(was, e), CutsOf(ref, ids));
        }
      }
      PresentAfter(was, rows, {}, CutsOf(ref, ids));
    }

    // deleteCascade: a recursive walk over tables that change under it. `gone` is what it removed.
    method DeleteCascade(entity: Entity, ids: set<int>) returns (ghost gone: set<Key>)
      requires Valid()
      modifies this`rows
      ensures Leaves(old(rows), rows, gone, Cuts(refs, gone))
      ensures PresentKeys(rows) == PresentKeys(old(rows)) - gone
      ensures Keys(entity, ids) <= gone && Unreferenced(rows, refs, gone, [], {})
      ensures forall s: set<Key> :: Keys(entity, ids) <= s && Closed(old(rows), refs, s, true) ==> gone <= s
      decreases PresentKeys(rows), if PresentKeys(rows) * Keys(entity, ids) == {} then 1 else 0
    {
      hide Leaves, Closed, Unreferenced, ChildrenOf, DistinctFields, Referencing, Cuts, PresentKeys;
      var below := ChildrenIn(children, entity);
      ghost var start := rows;
      ghost var k := Keys(entity, ids);
      RemoveRows(entity, ids);
      gone := k;
      ghost var cuts: set<Cut> := {};
      WalkStart(refs, start, rows, entity, ids);
      var i := 0;
      while i < |below|
        invariant 0 <= i <= |below| && k <= gone
        invariant PresentKeys(rows) == PresentKeys(start) - gone
        invariant Walked(refs, start, rows, gone, cuts, below[i..], k)
        invariant forall s: set<Key> :: k <= s && Closed(start, refs, s, true) ==> gone <= s
      {
        var ch := below[i];
        ChildrenOfMember(refs, ch, entity);
        assert below[i..] == [ch] + below[i + 1..];
        assert ch in below && ch in refs && ch.parent == entity;
        ghost var was := rows;
        if ch.onDelete.SetNull? {
          ClearReferences(ch, ids);
          WalkClear(refs, start, was, rows, gone, cuts, ch, below[i + 1..], entity, ids);
          cuts := cuts + CutsOf(ch, ids);
        } else {
          var childIds := ReferringIds(ch, ids);
          if childIds != {} {
            ReferringPresent(rows, ch, ids);
            ghost var more := DeleteCascade(ch.entity, childIds);
            WalkFollow(refs, start, was, rows, gone, cuts, ch, below[i + 1..], entity, ids, more);
            gone, cuts := gone + more, cuts + Cuts(refs, more);
          } else {
            WalkSkip(refs, start, rows, gone, cuts, ch, below[i + 1..], entity, ids);
          }
        }
        i := i + 1;
      }
      WalkDone(refs, start, rows, gone, cuts, below[i..], k);
    }

    method Delete(entity: Entity, id: int) returns (out: Outcome, ghost gone: set<Key>, ghost row: Row)
      requires Valid() && CheckEnds(rows, refs, entity, {id})
      modifies this`rows
      ensures Valid() && DeleteResult(refs, old(rows), rows, {Key(entity, id)}, out, gone, row)
      ensures ChecksTo(old(rows), refs, entity, {id}, out)
    {
      out, gone, row := DeleteIds(entity, {id});
      assert Keys(entity, {id}) == {Key(entity, id)};
    }

    method Clear(entity: Entity) returns (out: Outcome, ghost gone: set<Key>, ghost row: Row)
      requires Valid() && CheckEnds(rows, refs, entity, set r | r in At(rows, entity) :: r.id)
      modifies this`rows
      ensures Valid() && DeleteResult(refs, old(rows), rows, Keys(entity, set r | r in At(old(rows), entity) :: r.id),
        out, gone, row)
      ensures ChecksTo(old(rows), refs, entity, set r | r in At(old(rows), entity) :: r.id, out)
      ensures out.Deleted? ==> At(rows, entity) == []
    {
      var all := At(rows, entity);
      var ids: set<int> := {};
      var i := 0;
      while i < |all|
        invariant 0 <= i <= |all| && rows == old(rows)
        invariant ids == set r | r in all[..i] :: r.id
      {
        assert all[..i + 1] == all[..i] + [all[i]];
        ids := ids + {all[i].id};
        i := i + 1;
      }
      assert all[..i] == all;
      out, gone, row := DeleteIds(entity, ids);
      if out.Deleted? {
        NoneLeft(entity, all, gone, Cuts(refs, gone));
      }
    }

    method DeleteIds(entity: Entity, ids: set<int>) returns (out: Outcome, ghost gone: set<Key>, ghost row: Row)
      requires Valid() && CheckEnds(rows, refs, entity, ids)
      modifies this`rows
      ensures Valid() && DeleteResult(refs, old(rows), rows, Keys(entity, ids), out, gone, row)
      ensures ChecksTo(old(rows), refs, entity, ids, out)
    {
      hide CheckEnds, Settled, Unreferenced, Closed, Leaves, Blocks, DistinctFields, ChildrenOf;
      ghost var seen;
      out, seen, row := CheckRestrict(entity, ids);
      gone := {};
      if out.Deleted? {
        ghost var before := rows;
        gone := DeleteCascade(entity, ids);
        GoneClosed(refs, before, rows, gone);
        SeenCovers(refs, before, Keys(entity, ids), seen, gone);
      }
    }
  }

  lemma {:induction false} NoneLeft(e: Entity, rows: seq<Row>, gone: set<Key>, cuts: set<Cut>)
    requires Keys(e, set r | r in rows :: r.id) <= gone
    ensures Survivors(e, rows, gone, cuts) == []
  {
    if rows != [] {
      assert forall r :: r in rows ==> Key(e, r.id) in Keys(e, set r | r in rows :: r.id);
      NoneLeft(e, rows[1..], gone, cuts);
    }
  }

  // What a delete answers and leaves. Refused: the store is unchanged and some restrict row refers
  // to a row that would have to go. Deleted: exactly the rows reached are gone, exactly the setNull
  // references to them are cleared, everything else and its order is kept, and no restrict relation
  // refers to anything removed.
  ghost predicate DeleteResult(refs: seq<Reference>, before: Rows, after: Rows, start: set<Key>, out: Outcome,
          gone: set<Key>, row: Row) {
    match out
    case Refused(why) => after == before && Blocks(before, refs, start, why.ref, row)
    case Deleted =>
      && Leaves(before, after, gone, Cuts(refs, gone))
      && PresentKeys(after) == PresentKeys(before) - gone
      && ReachedExactly(before, refs, start, gone)
      && (forall ref, r :: !Blocks(before, refs, start, ref, r))
      && (forall ref, r :: ref in refs && r in At(before, ref.entity) && Refers(r, ref, gone) ==>
        !ref.onDelete.Restrict?)
  }

  lemma SeenCovers(refs: seq<Reference>, rows: Rows, start: set<Key>, seen: set<Key>, gone: set<Key>)
    requires start <= seen && Settled(rows, refs, seen, [], {})
    requires forall s: set<Key> :: start <= s && Closed(rows, refs, s, true) ==> gone <= s
    ensures forall ref, r :: ref in refs && r in At(rows, ref.entity) && Refers(r, ref, gone) ==>
      !ref.onDelete.Restrict?
  {
    assert Closed(rows, refs, seen, true);
    assert gone <= seen;
  }

  // ---- referential integrity ----

  // Every set reference names a row that is there.
  ghost predicate Intact(rows: Rows, refs: seq<Reference>) {
    forall ref, r :: ref in refs && r in At(rows, ref.entity) && Target(r, ref.field) != 0 ==>
      Key(ref.parent, Target(r, ref.field)) in PresentKeys(rows)
  }

  lemma CutIsCleared(refs: seq<Reference>, o: Row, ref: Reference, gone: set<Key>)
    requires ref in refs && ref.onDelete.SetNull?
    ensures var r := Cleared(ref.entity, o, Cuts(refs, gone));
      Target(r, ref.field) != 0 ==> Target(r, ref.field) == Target(o, ref.field) && !Refers(o, ref, gone)
  {
    if Refers(o, ref, gone) {
      assert Cut(ref, Target(o, ref.field)) in Cuts(refs, gone);
      assert ref.field in CutFields(ref.entity, o, Cuts(refs, gone));
    }
  }

  // A delete leaves no dangling reference.
  lemma IntactAfterDelete(refs: seq<Reference>, before: Rows, after: Rows, gone: set<Key>)
    requires DistinctFields(refs) && Intact(before, refs)
    requires Leaves(before, after, gone, Cuts(refs, gone)) && Closed(before, refs, gone, true)
    ensures Intact(after, refs)
  {
    PresentAfter(before, after, gone, Cuts(refs, gone));
    forall ref, r | ref in refs && r in At(after, ref.entity) && Target(r, ref.field) != 0
      ensures Key(ref.parent, Target(r, ref.field)) in PresentKeys(before) - gone
    {
      SurvivorsOf(ref.entity, At(before, ref.entity), gone, Cuts(refs, gone), r);
      var o :| o in At(before, ref.entity) && Key(ref.entity, o.id) !in gone
        && r == Cleared(ref.entity, o, Cuts(refs, gone));
      if ref.onDelete.SetNull? {
        CutIsCleared(refs, o, ref, gone);
      } else {
        TargetKept(refs, o, ref, Cuts(refs, gone));
        assert !Refers(o, ref, gone);
      }
    }
  }

  // With positive ids an unset reference is never taken for one to a removed row.
  lemma PositiveIds(refs: seq<Reference>, rows: Rows, start: set<Key>, gone: set<Key>)
    requires ReachedExactly(rows, refs, start, gone)
    requires forall k :: k in start + PresentKeys(rows) ==> k.id > 0
    ensures forall k :: k in gone ==> k.id > 0
    ensures forall ref: Reference, r :: Target(r, ref.field) == 0 ==> !Refers(r, ref, gone)
  {
    var s := start + PresentKeys(rows);
    forall ref, r | ref in refs && r in At(rows, ref.entity) ensures Key(ref.entity, r.id) in s {
    }
    assert Closed(rows, refs, s, true);
  }

  // ---- a reference by the id its field holds ----

  // A setNull relation of field `f` to a row `gone` holds.
  ghost predicate NullsOut(refs: seq<Reference>, gone: set<Key>, e: Entity, f: Field, id: int) {
    exists ref ::
      ref in refs && ref.entity == e && ref.field == f && ref.onDelete.SetNull? && Key(ref.parent, id) in gone
  }

  // A row that stays holds what it held, but for setNull fields with the id of a removed row, which hold nil.
  lemma SurvivorHolds(refs: seq<Reference>, before: Rows, after: Rows, gone: set<Key>, e: Entity, r: Row)
          returns (kept: Row)
    requires Leaves(before, after, gone, Cuts(refs, gone)) && r in At(before, e) && Key(e, r.id) !in gone
    ensures kept in At(after, e) && kept.id == r.id
    ensures forall f, id :: f in r.fields && r.fields[f] == Num(id) ==>
      f in kept.fields && kept.fields[f] == if NullsOut(refs, gone, e, f, id) then Nil else Num(id)
    ensures forall f :: f in r.fields && r.fields[f] == Nil ==> f in kept.fields && kept.fields[f] == Nil
  {
    var cuts := Cuts(refs, gone);
    kept := Cleared(e, r, cuts);
    SurvivorsOf(e, At(before, e), gone, cuts, kept);
    forall f, id | f in r.fields && r.fields[f] == Num(id)
      ensures f in CutFields(e, r, cuts) <==> NullsOut(refs, gone, e, f, id)
    {
      if NullsOut(refs, gone, e, f, id) {
        var ref :| ref in refs && ref.entity == e && ref.field == f && ref.onDelete.SetNull?
          && Key(ref.parent, id) in gone;
        assert Cut(ref, id) in cuts;
      }
    }
  }

  // A row whose cascade or restrict field holds the id of a removed row is removed.
  lemma HolderGoes(refs: seq<Reference>, before: Rows, after: Rows, gone: set<Key>, ref: Reference, r: Row, id: int)
    requires Leaves(before, after, gone, Cuts(refs, gone)) && Closed(before, refs, gone, true)
    requires ref in refs && !ref.onDelete.SetNull? && r in At(before, ref.entity)
    requires ref.field in r.fields && r.fields[ref.field] == Num(id) && Key(ref.parent, id) in gone
    ensures forall o :: o in At(after, ref.entity) ==> o.id != r.id
  {
    assert Refers(r, ref, gone);
    forall o | o in At(after, ref.entity) ensures o.id != r.id {
      SurvivorsOf(ref.entity, At(before, ref.entity), gone, Cuts(refs, gone), o);
    }
  }

  // A row not asked for whose cascade and restrict fields hold ids of rows that stay, stays.
  lemma OthersStay(refs: seq<Reference>, rows: Rows, start: set<Key>, gone: set<Key>, k: Key)
    requires ReachedExactly(rows, refs, start, gone) && k !in start
    requires forall ref, r :: ref in refs && r in At(rows, ref.entity) && Key(ref.entity, r.id) == k ==>
      ref.onDelete.SetNull?
        || (ref.field in r.fields && r.fields[ref.field].Num? && Key(ref.parent, r.fields[ref.field].n) !in gone)
    ensures k !in gone
  {
    assert Closed(rows, refs, gone - {k}, true);
  }

  // How far a delete has walked: `gone` removed, `cuts` cleared, the relations of `left` still to
  // be followed from the keys `k`.
  ghost predicate Walked(refs: seq<Reference>, start: Rows, now: Rows, gone: set<Key>, cuts: set<Cut>,
          left: seq<Reference>, k: set<Key>) {
    && Leaves(start, now, gone, cuts)
    && cuts <= Cuts(refs, gone)
    && (forall c :: c in Cuts(refs, gone) - cuts ==> c.ref in left && Key(c.ref.parent, c.id) in k)
    && Unreferenced(now, refs, gone, left, k)
  }

  lemma WalkStart(refs: seq<Reference>, start: Rows, now: Rows, e: Entity, ids: set<int>)
    requires Leaves(start, now, Keys(e, ids), {})
    ensures Walked(refs, start, now, Keys(e, ids), {}, ChildrenOf(refs, e), Keys(e, ids))
  {
    forall ref ensures ref in ChildrenOf(refs, e) <==> ref in refs && ref.parent == e {
      ChildrenOfMember(refs, ref, e);
    }
  }

  lemma WalkClear(refs: seq<Reference>, start: Rows, was: Rows, now: Rows, gone: set<Key>, cuts: set<Cut>,
          ch: Reference, rest: seq<Reference>, e: Entity, ids: set<int>)
    requires DistinctFields(refs) && ch in refs && ch.parent == e && ch.onDelete.SetNull? && Keys(e, ids) <= gone
    requires Walked(refs, start, was, gone, cuts, [ch] + rest, Keys(e, ids))
    requires Leaves(was, now, {}, CutsOf(ch, ids))
    ensures Walked(refs, start, now, gone, cuts + CutsOf(ch, ids), rest, Keys(e, ids))
  {
    LeavesTwice(start, was, now, gone, cuts, {}, CutsOf(ch, ids));
    assert gone + {} == gone;
    assert CutsOf(ch, ids) <= Cuts(refs, gone) by {
      forall i | i in ids ensures Cut(ch, i) in Cuts(refs, gone) { assert Key(e, i) in Keys(e, ids); }
    }
    UnreferencedAfter(refs, was, now, {}, CutsOf(ch, ids), gone, [ch] + rest, Keys(e, ids));
    forall ref, r | ref in refs && r in At(now, ref.entity) && Refers(r, ref, gone) && !ref.onDelete.SetNull?
      ensures ref in rest && Refers(r, ref, Keys(e, ids))
    {
      assert ref in [ch] + rest;
    }
  }

  lemma WalkSkip(refs: seq<Reference>, start: Rows, now: Rows, gone: set<Key>, cuts: set<Cut>, ch: Reference,
          rest: seq<Reference>, e: Entity, ids: set<int>)
    requires ch.parent == e && !ch.onDelete.SetNull? && Referencing(At(now, ch.entity), ch, ids) == {}
    requires Walked(refs, start, now, gone, cuts, [ch] + rest, Keys(e, ids))
    ensures Walked(refs, start, now, gone, cuts, rest, Keys(e, ids))
  {
    forall ref, r | ref in refs && r in At(now, ref.entity) && Refers(r, ref, gone) && !ref.onDelete.SetNull?
      ensures ref in rest && Refers(r, ref, Keys(e, ids))
    {
      assert ref in [ch] + rest;
      assert ref == ch ==> r.id in Referencing(At(now, ch.entity), ch, ids);
    }
  }

  lemma WalkFollow(refs: seq<Reference>, start: Rows, was: Rows, now: Rows, gone: set<Key>, cuts: set<Cut>,
          ch: Reference, rest: seq<Reference>, e: Entity, ids: set<int>, more: set<Key>)
    requires DistinctFields(refs) && ch in refs && ch.parent == e && !ch.onDelete.SetNull? && Keys(e, ids) <= gone
    requires Walked(refs, start, was, gone, cuts, [ch] + rest, Keys(e, ids))
    requires Leaves(was, now, more, Cuts(refs, more)) && Unreferenced(now, refs, more, [], {})
    requires Keys(ch.entity, Referencing(At(was, ch.entity), ch, ids)) <= more
    requires forall s: set<Key> ::
      Keys(ch.entity, Referencing(At(was, ch.entity), ch, ids)) <= s && Closed(was, refs, s, true) ==> more <= s
    ensures Walked(refs, start, now, gone + more, cuts + Cuts(refs, more), rest, Keys(e, ids))
    ensures forall s: set<Key> :: gone <= s && Closed(start, refs, s, true) ==> gone + more <= s
  {
    LeavesTwice(start, was, now, gone, cuts, more, Cuts(refs, more));
    UnreferencedAfter(refs, was, now, more, Cuts(refs, more), gone, [ch] + rest, Keys(e, ids));
    forall ref, r | ref in refs && r in At(now, ref.entity) && Refers(r, ref, gone + more) && !ref.onDelete.SetNull?
      ensures ref in rest && Refers(r, ref, Keys(e, ids))
    {
      assert ref in [ch] + rest;
      var o := SurvivorOrigin(refs, was, now, more, Cuts(refs, more), ref, r);
      assert ref == ch ==> o.id in Referencing(At(was, ch.entity), ch, ids);
      assert ref == ch ==> Key(ch.entity, o.id) in Keys(ch.entity, Referencing(At(was, ch.entity), ch, ids));
    }
    forall s: set<Key> | gone <= s && Closed(start, refs, s, true) ensures gone + more <= s {
      ClosedAfter(refs, start, was, gone, cuts, s);
      forall x | x in Keys(ch.entity, Referencing(At(was, ch.entity), ch, ids)) ensures x in s {
        var r :| r in At(was, ch.entity) && Target(r, ch.field) in ids && r.id == x.id;
        assert Key(e, Target(r, ch.field)) in Keys(e, ids);
        assert Refers(r, ch, s);
      }
    }
  }

  lemma WalkDone(refs: seq<Reference>, start: Rows, now: Rows, gone: set<Key>, cuts: set<Cut>, left: seq<Reference>,
          k: set<Key>)
    requires Walked(refs, start, now, gone, cuts, left, k) && left == []
    ensures Leaves(start, now, gone, Cuts(refs, gone)) && Unreferenced(now, refs, gone, [], {})
  {
    assert cuts == Cuts(refs, gone);
  }

  // Rows still there that refer to removed rows are themselves present: following them removes some.
  lemma ReferringPresent(rows: Rows, ref: Reference, ids: set<int>)
    requires Referencing(At(rows, ref.entity), ref, ids) != {}
    ensures PresentKeys(rows) * Keys(ref.entity, Referencing(At(rows, ref.entity), ref, ids)) != {}
  {
    var r := SomeReferring(rows, ref, ids);
    assert Key(ref.entity, r.id) in PresentKeys(rows);
    assert Key(ref.entity, r.id) in PresentKeys(rows) * Keys(ref.entity, Referencing(At(rows, ref.entity), ref, ids));
  }

  function CutsOf(ref: Reference, ids: set<int>): set<Cut> {
    set i | i in ids :: Cut(ref, i)
  }

  lemma {:induction false} SurvivorsSnoc(e: Entity, rows: seq<Row>, r: Row, gone: set<Key>, cuts: set<Cut>)
    ensures Survivors(e, rows + [r], gone, cuts)
         == Survivors(e, rows, gone, cuts) + if Key(e, r.id) in gone then [] else [Cleared(e, r, cuts)]
  {
    if rows == [] {
      assert [r][1..] == [];
    } else {
      SurvivorsSnoc(e, rows[1..], r, gone, cuts);
      assert (rows + [r])[1..] == rows[1..] + [r];
    }
  }

  lemma NothingCleared(e: Entity, r: Row)
    ensures Cleared(e, r, {}) == r
  {
    assert Cleared(e, r, {}).fields == r.fields;
  }

  lemma {:induction false} SurvivorsAlien(e: Entity, rows: seq<Row>, gone: set<Key>)
    requires forall k :: k in gone ==> k.entity != e
    ensures Survivors(e, rows, gone, {}) == rows
  {
    if rows != [] {
      SurvivorsAlien(e, rows[1..], gone);
      NothingCleared(e, rows[0]);
    }
  }

  lemma {:induction false} SurvivorsUncut(e: Entity, rows: seq<Row>, cuts: set<Cut>)
    requires forall c :: c in cuts ==> c.ref.entity != e
    ensures Survivors(e, rows, {}, cuts) == rows
  {
    if rows != [] {
      SurvivorsUncut(e, rows[1..], cuts);
      assert Cleared(e, rows[0], cuts).fields == rows[0].fields;
    }
  }

  lemma ClearedByOne(ref: Reference, r: Row, ids: set<int>)
    ensures Cleared(ref.entity, r, CutsOf(ref, ids))
         == if Target(r, ref.field) in ids then Row(r.id, r.fields[ref.field := Nil]) else r
  {
    var cleared := Cleared(ref.entity, r, CutsOf(ref, ids));
    if Target(r, ref.field) in ids {
      assert Cut(ref, Target(r, ref.field)) in CutsOf(ref, ids);
      assert CutFields(ref.entity, r, CutsOf(ref, ids)) == {ref.field};
      assert cleared.fields == r.fields[ref.field := Nil];
    } else {
      assert CutFields(ref.entity, r, CutsOf(ref, ids)) == {};
      assert cleared.fields == r.fields;
    }
  }

  // What stays present is what was present and not removed.
  lemma PresentAfter(before: Rows, after: Rows, gone: set<Key>, cuts: set<Cut>)
    requires Leaves(before, after, gone, cuts)
    ensures PresentKeys(after) == PresentKeys(before) - gone
  {
    forall k: Key ensures k in PresentKeys(after) <==> k in PresentKeys(before) && k !in gone {
      if k in PresentKeys(after) {
        var r :| r in At(after, k.entity) && r.id == k.id;
        SurvivorsOf(k.entity, At(before, k.entity), gone, cuts, r);
      }
      if k in PresentKeys(before) && k !in gone {
        var o :| o in At(before, k.entity) && o.id == k.id;
        SurvivorsOf(k.entity, At(before, k.entity), gone, cuts, Cleared(k.entity, o, cuts));
        assert Cleared(k.entity, o, cuts) in At(after, k.entity);
      }
    }
  }

  lemma BlocksHere(rows: Rows, refs: seq<Reference>, e: Entity, ids: set<int>, ref: Reference, r: Row)
    requires ref in refs && ref.parent == e && ref.onDelete.Restrict?
    requires r in At(rows, ref.entity) && Target(r, ref.field) in ids
    ensures Blocks(rows, refs, Keys(e, ids), ref, r)
  {
    assert Key(e, Target(r, ref.field)) in Keys(e, ids);
  }

  lemma SettledStart(rows: Rows, refs: seq<Reference>, e: Entity, ids: set<int>)
    ensures Settled(rows, refs, Keys(e, ids), ChildrenOf(refs, e), Keys(e, ids))
  {
    forall ref | ref in refs && ref.parent == e ensures ref in ChildrenOf(refs, e) { ChildrenOfMember(refs, ref, e); }
  }

  lemma SettledEmpty(rows: Rows, refs: seq<Reference>)
    ensures Settled(rows, refs, {}, [], {})
  {
  }

  lemma SettledDone(rows: Rows, refs: seq<Reference>, s: set<Key>, left: seq<Reference>, k: set<Key>)
    requires Settled(rows, refs, s, left, k) && left == []
    ensures Settled(rows, refs, s, [], {})
  {
  }

  lemma SomeReferring(rows: Rows, ref: Reference, ids: set<int>) returns (r: Row)
    requires Referencing(At(rows, ref.entity), ref, ids) != {}
    ensures r in At(rows, ref.entity) && Target(r, ref.field) in ids
  {
    var i :| i in Referencing(At(rows, ref.entity), ref, ids);
    r :| r in At(rows, ref.entity) && Target(r, ref.field) in ids && r.id == i;
  }

  // One relation followed: what refers through it is settled with the rows found below it.
  lemma SettledStep(rows: Rows, refs: seq<Reference>, seen: set<Key>, ch: Reference, rest: seq<Reference>, e: Entity,
          ids: set<int>, under: set<Key>)
    requires Settled(rows, refs, seen, [ch] + rest, Keys(e, ids)) && Settled(rows, refs, under, [], {})
    requires ch.parent == e
    requires ch.onDelete.Cascade? ==> Keys(ch.entity, Referencing(At(rows, ch.entity), ch, ids)) <= under
    requires ch.onDelete.Restrict? ==> Referencing(At(rows, ch.entity), ch, ids) == {}
    ensures Settled(rows, refs, seen + under, rest, Keys(e, ids))
  {
    forall ref, r | ref in refs && r in At(rows, ref.entity) && Refers(r, ref, seen + under)
        && !(ref in rest && Refers(r, ref, Keys(e, ids)))
      ensures (ref.onDelete.Cascade? ==> Key(ref.entity, r.id) in seen + under) && !ref.onDelete.Restrict?
    {
      if Refers(r, ref, under) {
        assert !(ref in [] && Refers(r, ref, {}));
      } else {
        assert Refers(r, ref, seen);
        if ref in [ch] + rest && Refers(r, ref, Keys(e, ids)) {
          assert ref == ch && r.id in Referencing(At(rows, ch.entity), ch, ids);
          assert Key(ch.entity, r.id) in Keys(ch.entity, Referencing(At(rows, ch.entity), ch, ids));
        }
      }
    }
  }

  lemma BlocksAbove(rows: Rows, refs: seq<Reference>, e: Entity, ids: set<int>, via: Reference, ref: Reference, r: Row)
    requires via in refs && via.parent == e && via.onDelete.Cascade?
    requires Blocks(rows, refs, Keys(via.entity, Referencing(At(rows, via.entity), via, ids)), ref, r)
    ensures Blocks(rows, refs, Keys(e, ids), ref, r)
  {
    forall s: set<Key> | Keys(e, ids) <= s && Closed(rows, refs, s, false) ensures Refers(r, ref, s) {
      forall k | k in Keys(via.entity, Referencing(At(rows, via.entity), via, ids)) ensures k in s {
        var o :| o in At(rows, via.entity) && Target(o, via.field) in ids && o.id == k.id;
        assert Refers(o, via, s);
      }
    }
  }

  // Without that, a delete of id 0 takes every row whose cascade reference is unset.
  lemma ZeroIdTakesUnset(child: Entity, parent: Entity, f: Field, gone: set<Key>)
    requires ReachedExactly(map[child := [Row(1, map[])]], [Reference(child, f, parent, Cascade)], {Key(parent, 0)},
      gone)
    ensures Key(child, 1) in gone
  {
    var rows, ref := map[child := [Row(1, map[])]], Reference(child, f, parent, Cascade);
    assert ref in [ref] && Row(1, map[]) in At(rows, child) && Refers(Row(1, map[]), ref, gone);
  }
}
