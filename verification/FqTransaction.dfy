// The FacetQL transaction buffer: saves, deletes and clears collected into one batch in which a
// second save of a row replaces the first (runtime/fqstore.go).
module FqTransaction {
  import opened Options

  // fqAddress spells the entity and the padded id; it is taken as the pair it encodes.
  datatype Addr = Addr(entity: string, id: int)

  datatype Op =
    | Insert(addr: Addr, data: string)
    | DeleteNode(addr: Addr)
    | ClearKind(kind: string)

  // A keyed store: what it holds at each address.
  type Nodes = map<Addr, string>

  function Apply(s: Nodes, op: Op): Nodes {
    match op
    case Insert(a, d) => s[a := d]
    case DeleteNode(a) => s - {a}
    case ClearKind(k) => map a | a in s && a.entity != k :: s[a]
  }

  // A batch is applied in order.
  function ApplyAll(s: Nodes, ops: seq<Op>): Nodes {
    if ops == [] then s else Apply(ApplyAll(s, ops[..|ops| - 1]), ops[|ops| - 1])
  }

  // The two stores hold the same at an address.
  predicate SameAt(s: Nodes, n: Nodes, a: Addr) {
    (a in s <==> a in n) && (a in s ==> s[a] == n[a])
  }

  // An insert sets its address, a delete empties it and a clear every address of its kind; nothing
  // happens anywhere else.
  lemma ApplyExact(s: Nodes, a: Addr, b: Addr, d: string, kind: string)
    ensures var n := Apply(s, Insert(b, d)); if a == b then a in n && n[a] == d else SameAt(s, n, a)
    ensures var n := Apply(s, DeleteNode(b)); if a == b then a !in n else SameAt(s, n, a)
    ensures var n := Apply(s, ClearKind(kind)); if a.entity == kind then a !in n else SameAt(s, n, a)
  {
  }

  // A delete of the address, or a clear of its kind.
  predicate Covers(op: Op, a: Addr) {
    op == DeleteNode(a) || op == ClearKind(a.entity)
  }

  predicate Touches(op: Op, a: Addr) {
    Covers(op, a) || (op.Insert? && op.addr == a)
  }

  // At every address the last op that names it, or clears its kind, decides what a batch leaves there.
  lemma {:induction false} LastDecides(s: Nodes, ops: seq<Op>, a: Addr, i: nat)
    requires i <= |ops| && forall k :: i <= k < |ops| ==> !Touches(ops[k], a)
    requires i > 0 ==> Touches(ops[i - 1], a)
    ensures var n := ApplyAll(s, ops);
      if i == 0 then SameAt(s, n, a) else if ops[i - 1].Insert? then a in n && n[a] == ops[i - 1].data else a !in n
  {
    if i < |ops| {
      LastDecides(s, ops[..|ops| - 1], a, i);
    }
  }

  ghost predicate CoveredBetween(ops: seq<Op>, i: nat, j: nat)
    requires i < |ops| && j <= |ops| && ops[i].Insert?
  {
    exists k :: i < k < j && Covers(ops[k], ops[i].addr)
  }

  // Two inserts at one address have a delete or a clear covering it between them.
  ghost predicate Separated(ops: seq<Op>) {
    forall i, j :: 0 <= i < j < |ops| && ops[i].Insert? && ops[j].Insert? && ops[i].addr == ops[j].addr ==>
      CoveredBetween(ops, i, j)
  }

  // `live` names, per address, the insert nothing after it has touched: every other insert is
  // covered by a later delete or clear.
  ghost predicate LiveOk(ops: seq<Op>, live: map<Addr, nat>) {
    && (forall a :: a in live ==> live[a] < |ops| && ops[live[a]].Insert? && ops[live[a]].addr == a)
    && (forall a, k :: a in live && live[a] < k < |ops| ==> !Touches(ops[k], a))
    && (forall i :: 0 <= i < |ops| && ops[i].Insert? ==>
          (ops[i].addr in live && live[ops[i].addr] == i) || CoveredBetween(ops, i, |ops|))
  }

  // Both batches leave the same store, whatever store they start from.
  ghost predicate SameEffect(a: seq<Op>, b: seq<Op>) {
    forall s: Nodes :: ApplyAll(s, a) == ApplyAll(s, b)
  }

  lemma UntouchedCommutes(s: Nodes, op: Op, a: Addr, d: string)
    requires !Touches(op, a)
    ensures Apply(s[a := d], op) == Apply(s, op)[a := d]
  {
    assert Apply(s[a := d], op).Keys == Apply(s, op)[a := d].Keys;
  }

  // Replacing an insert nothing later touches is the same as saving again at the end.
  lemma {:induction false} ReplaceIsLaterSave(s: Nodes, ops: seq<Op>, i: nat, d: string)
    requires i < |ops| && ops[i].Insert? && forall k :: i < k < |ops| ==> !Touches(ops[k], ops[i].addr)
    ensures ApplyAll(s, ops[i := Insert(ops[i].addr, d)]) == ApplyAll(s, ops)[ops[i].addr := d]
  {
    var a := ops[i].addr;
    var last := |ops| - 1;
    var now := ops[i := Insert(a, d)];
    if i == last {
      assert now[..last] == ops[..last];
    } else {
      var most := ops[..last];
      assert now[..last] == most[i := Insert(a, d)];
      ReplaceIsLaterSave(s, most, i, d);
      UntouchedCommutes(ApplyAll(s, most), ops[last], a, d);
    }
  }

  // A row comes as its encoding, None when it cannot be encoded.
  class FqTx {
    var ops: seq<Op>
    var live: map<Addr, nat>
    var failed: bool
    // Every accepted call, one op each, nothing collapsed.
    ghost var calls: seq<Op>

    ghost predicate Valid()
      reads this
    {
      LiveOk(ops, live) && Separated(ops) && SameEffect(ops, calls)
    }

    constructor ()
      ensures Valid() && calls == [] && !failed
    {
      ops, live, failed, calls := [], map[], false, [];
    }

    method Save(a: Addr, row: Option<string>) returns (ok: bool)
      requires Valid()
      modifies this
      ensures Valid() && ok == (!old(failed) && row.Some?) && failed == !ok
      ensures calls == if ok then old(calls) + [Insert(a, row.value)] else old(calls)
    {
      if failed { return false; }
      if row.None? {
        failed := true;
        return false;
      }
      var op := Insert(a, row.value);
      if a in live {
        ReplaceKeeps(ops, live, calls, a, row.value);
        ops := ops[live[a] := op];
      } else {
        AppendKeeps(ops, live, calls, op);
        live := live[a := |ops|];
        ops := ops + [op];
      }
      calls := calls + [op];
      ok := true;
    }

    method Delete(a: Addr)
      requires Valid()
      modifies this
      ensures Valid() && failed == old(failed) && calls == old(calls) + [DeleteNode(a)]
    {
      AppendKeeps(ops, live, calls, DeleteNode(a));
      live := live - {a};
      ops := ops + [DeleteNode(a)];
      calls := calls + [DeleteNode(a)];
    }

    method Clear(kind: string)
      requires Valid()
      modifies this
      ensures Valid() && failed == old(failed) && calls == old(calls) + [ClearKind(kind)]
    {
      hide LiveOk, Separated, SameEffect;
      AppendKeeps(ops, live, calls, ClearKind(kind));
      // Drop every live address of the kind, one at a time.
      ghost var was := live;
      var left := live.Keys;
      while left != {}
        invariant left <= live.Keys <= was.Keys && ops == old(ops) && calls == old(calls) && failed == old(failed)
        invariant forall a :: a in live ==> live[a] == was[a]
        invariant forall a :: a in was && a !in left ==> (a in live <==> a.entity != kind)
      {
        var a :| a in left;
        left := left - {a};
        if a.entity == kind {
          live := live - {a};
        }
      }
      assert live == LiveAfter(was, ops, ClearKind(kind));
      ops := ops + [ClearKind(kind)];
      calls := calls + [ClearKind(kind)];
    }

    // The batch sent, or nothing at all after a failed save. Whatever the server holds, sending the
    // batch leaves what the calls one by one would have left, and no two inserts clash.
    method Commit() returns (sent: Option<seq<Op>>)
      requires Valid()
      ensures sent.None? <==> failed
      ensures sent.Some? ==> SameEffect(sent.value, calls) && Separated(sent.value)
    {
      sent := if failed then None else Some(ops);
    }

    method Rollback()
      modifies this
      ensures Valid() && calls == [] && !failed && ops == []
    {
      ops, live, failed, calls := [], map[], false, [];
    }
  }

  // `live` after one more op is appended.
  function LiveAfter(live: map<Addr, nat>, ops: seq<Op>, op: Op): map<Addr, nat> {
    match op
    case Insert(a, _) => live[a := |ops|]
    case DeleteNode(a) => live - {a}
    case ClearKind(k) => map a | a in live && a.entity != k :: live[a]
  }

  lemma AppendKeeps(ops: seq<Op>, live: map<Addr, nat>, calls: seq<Op>, op: Op)
    requires LiveOk(ops, live) && Separated(ops) && SameEffect(ops, calls)
    requires op.Insert? ==> op.addr !in live
    ensures LiveOk(ops + [op], LiveAfter(live, ops, op)) && Separated(ops + [op])
      && SameEffect(ops + [op], calls + [op])
  {
    hide LiveOk, Separated, SameEffect;
    AppendLive(ops, live, op);
    AppendSeparated(ops, live, op);
    AppendSame(ops, calls, op);
  }

  // A cover found in a batch is still there in a batch that agrees with it up to there.
  lemma CoverCarries(ops: seq<Op>, n: seq<Op>, i: nat, j: nat, m: nat)
    requires i < j <= m && j <= |ops| && m <= |n| && ops[i].Insert? && n[i].Insert? && n[i].addr == ops[i].addr
    requires forall k :: i < k < j ==> n[k] == ops[k] || !Covers(ops[k], ops[i].addr)
    requires CoveredBetween(ops, i, j)
    ensures CoveredBetween(n, i, m)
  {
    var k :| i < k < j && Covers(ops[k], ops[i].addr);
    assert n[k] == ops[k];
  }

  lemma AppendLive(ops: seq<Op>, live: map<Addr, nat>, op: Op)
    requires LiveOk(ops, live) && (op.Insert? ==> op.addr !in live)
    ensures LiveOk(ops + [op], LiveAfter(live, ops, op))
  {
    hide CoveredBetween;
    var n := ops + [op];
    var after := LiveAfter(live, ops, op);
    forall a | a in after ensures after[a] < |n| && n[after[a]].Insert? && n[after[a]].addr == a {
      if a in live && after[a] == live[a] { assert n[live[a]] == ops[live[a]]; }
    }
    forall a, k | a in after && after[a] < k < |n| ensures !Touches(n[k], a) {
      if k < |ops| { assert n[k] == ops[k]; }
    }
    forall i | 0 <= i < |n| && n[i].Insert?
      ensures (n[i].addr in after && after[n[i].addr] == i) || CoveredBetween(n, i, |n|)
    {
      if i < |ops| { AppendCovered(ops, live, op, i); }
    }
  }

  lemma AppendCovered(ops: seq<Op>, live: map<Addr, nat>, op: Op, i: nat)
    requires LiveOk(ops, live) && (op.Insert? ==> op.addr !in live) && i < |ops| && ops[i].Insert?
    ensures var a, after := ops[i].addr, LiveAfter(live, ops, op);
      (a in after && after[a] == i) || CoveredBetween(ops + [op], i, |ops| + 1)
  {
    hide CoveredBetween;
    var n := ops + [op];
    if CoveredBetween(ops, i, |ops|) {
      CoverCarries(ops, n, i, |ops|, |n|);
    } else if Covers(op, ops[i].addr) {
      CoveredAt(n, i, |ops|);
    }
  }

  lemma CoveredAt(ops: seq<Op>, i: nat, k: nat)
    requires i < k < |ops| && ops[i].Insert? && Covers(ops[k], ops[i].addr)
    ensures CoveredBetween(ops, i, |ops|)
  {
  }

  lemma AppendSeparated(ops: seq<Op>, live: map<Addr, nat>, op: Op)
    requires LiveOk(ops, live) && Separated(ops) && (op.Insert? ==> op.addr !in live)
    ensures Separated(ops + [op])
  {
    hide CoveredBetween, Covers;
    var n := ops + [op];
    forall i, j | 0 <= i < j < |n| && n[i].Insert? && n[j].Insert? && n[i].addr == n[j].addr
      ensures CoveredBetween(n, i, j)
    {
      assert n[i] == ops[i];
      if j < |ops| { assert n[j] == ops[j]; }
      CoverCarries(ops, n, i, if j < |ops| then j else |ops|, j);
    }
  }

  lemma AppendSame(ops: seq<Op>, calls: seq<Op>, op: Op)
    requires SameEffect(ops, calls)
    ensures SameEffect(ops + [op], calls + [op])
  {
    assert (ops + [op])[..|ops|] == ops && (calls + [op])[..|calls|] == calls;
  }

  lemma ReplaceKeeps(ops: seq<Op>, live: map<Addr, nat>, calls: seq<Op>, a: Addr, d: string)
    requires LiveOk(ops, live) && Separated(ops) && SameEffect(ops, calls) && a in live
    ensures var n := ops[live[a] := Insert(a, d)];
      LiveOk(n, live) && Separated(n) && SameEffect(n, calls + [Insert(a, d)])
  {
    hide CoveredBetween;
    var n := ops[live[a] := Insert(a, d)];
    forall i | 0 <= i < |n| && n[i].Insert?
      ensures (n[i].addr in live && live[n[i].addr] == i) || CoveredBetween(n, i, |n|)
    {
      if CoveredBetween(ops, i, |ops|) { CoverCarries(ops, n, i, |ops|, |n|); }
    }
    forall i, j | 0 <= i < j < |n| && n[i].Insert? && n[j].Insert? && n[i].addr == n[j].addr
      ensures CoveredBetween(n, i, j)
    {
      CoverCarries(ops, n, i, j, j);
    }
    ReplaceSame(ops, live, calls, a, d);
  }

  lemma ReplaceSame(ops: seq<Op>, live: map<Addr, nat>, calls: seq<Op>, a: Addr, d: string)
    requires LiveOk(ops, live) && SameEffect(ops, calls) && a in live
    ensures SameEffect(ops[live[a] := Insert(a, d)], calls + [Insert(a, d)])
  {
    hide CoveredBetween;
    var n := ops[live[a] := Insert(a, d)];
    forall s: Nodes ensures ApplyAll(s, n) == ApplyAll(s, calls + [Insert(a, d)]) {
      ReplaceIsLaterSave(s, ops, live[a], d);
      assert (calls + [Insert(a, d)])[..|calls|] == calls;
      assert ApplyAll(s, ops) == ApplyAll(s, calls);
    }
  }
}
