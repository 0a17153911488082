// Rune-indexed search and slicing over UTF-8 text: a byte search, then a binary search over the
// offsets at which runes start (runtime/eval.go). The encoding is section 3 of RFC 3629.
module RuneSearch {
  import opened Sequences

  type Byte = b: int | 0 <= b < 256

  // A Unicode scalar value: no surrogates, nothing past U+10FFFF.
  type Rune = r: int | 0 <= r < 0xD800 || 0xE000 <= r < 0x110000

  type Bytes = seq<Byte>

  function Width(r: Rune): (n: nat)
    ensures 1 <= n <= 4
  {
    if r < 0x80 then 1 else if r < 0x800 then 2 else if r < 0x10000 then 3 else 4
  }

  function Tail(n: nat): Byte {
    0x80 + n % 64
  }

  function Encode(r: Rune): (s: Bytes)
    ensures |s| == Width(r)
  {
    match Width(r)
    case 1 => [r]
    case 2 => [0xC0 + r / 64, Tail(r)]
    case 3 => [0xE0 + r / 4096, Tail(r / 64), Tail(r)]
    case _ => [0xF0 + r / 262144, Tail(r / 4096), Tail(r / 64), Tail(r)]
  }

  function EncodeAll(rs: seq<Rune>): Bytes {
    if rs == [] then [] else Encode(rs[0]) + EncodeAll(rs[1..])
  }

  // A byte that continues a rune rather than starting one.
  predicate Continues(b: Byte) {
    0x80 <= b < 0xC0
  }

  // How many bytes the rune led by this byte takes; a byte that leads none takes one.
  function LeadWidth(b: Byte): nat {
    if b < 0xC0 then 1 else if b < 0xE0 then 2 else if b < 0xF0 then 3 else if b < 0xF8 then 4 else 1
  }

  // ---- the encoding synchronises itself ----

  // Only the first byte of a rune is no continuation, and it tells the rune's width.
  lemma LeadTells(r: Rune)
    ensures !Continues(Encode(r)[0]) && LeadWidth(Encode(r)[0]) == Width(r)
    ensures forall k :: 1 <= k < Width(r) ==> Continues(Encode(r)[k])
  {
  }

  // The table of section 3 of RFC 3629: how many bytes a rune takes, the range each byte is in, and
  // the rune read back from their payloads.
  ghost predicate Utf8(r: int, s: seq<int>) {
    if r <= 0x7F then s == [r]
    else
      && (forall k :: 1 <= k < |s| ==> 0x80 <= s[k] <= 0xBF)
      && if r <= 0x7FF then |s| == 2 && 0xC2 <= s[0] <= 0xDF && r == (s[0] - 0xC0) * 0x40 + (s[1] - 0x80)
         else if r <= 0xFFFF then
           |s| == 3 && 0xE0 <= s[0] <= 0xEF && r == (s[0] - 0xE0) * 0x1000 + (s[1] - 0x80) * 0x40 + (s[2] - 0x80)
         else
           && |s| == 4 && 0xF0 <= s[0] <= 0xF4
           && r == (s[0] - 0xF0) * 0x40000 + (s[1] - 0x80) * 0x1000 + (s[2] - 0x80) * 0x40 + (s[3] - 0x80)
  }

  lemma EncodesUtf8(r: Rune)
    ensures Utf8(r, Encode(r))
  {
    Digits64(r);
  }

  lemma EncodeInjective(a: Rune, b: Rune)
    requires Encode(a) == Encode(b)
    ensures a == b
  {
    LeadTells(a);
    LeadTells(b);
    Digits64(a);
    Digits64(b);
    if Width(a) == 2 { assert Encode(a)[1] == Encode(b)[1]; }
    if Width(a) == 3 { assert Encode(a)[1] == Encode(b)[1] && Encode(a)[2] == Encode(b)[2]; }
    if Width(a) == 4 {
      assert Encode(a)[1] == Encode(b)[1] && Encode(a)[2] == Encode(b)[2] && Encode(a)[3] == Encode(b)[3];
    }
    assert Encode(a)[0] == Encode(b)[0];
  }

  lemma Digits64(r: Rune)
    ensures r == 64 * (r / 64) + r % 64
    ensures r / 64 == 64 * (r / 4096) + r / 64 % 64
    ensures r / 4096 == 64 * (r / 262144) + r / 4096 % 64
  {
    assert r / 64 / 64 == r / 4096 && r / 4096 / 64 == r / 262144;
  }

  lemma EncodeCons(r: Rune, s: seq<Rune>)
    ensures EncodeAll([r] + s) == Encode(r) + EncodeAll(s)
  {
    assert ([r] + s)[1..] == s;
  }

  lemma {:induction false} EncodeConcat(a: seq<Rune>, b: seq<Rune>)
    ensures EncodeAll(a + b) == EncodeAll(a) + EncodeAll(b)
  {
    if a == [] {
      assert a + b == b;
    } else {
      hide EncodeAll, Encode;
      var r, t := a[0], a[1..];
      assert a == [r] + t;
      EncodeConcat(t, b);
      Associates([r], t, b);
      EncodeCons(r, t + b);
      EncodeCons(r, t);
      Associates(Encode(r), EncodeAll(t), EncodeAll(b));
    }
  }

  // Byte offset at which rune i starts; one past the last is the length.
  function Offset(rs: seq<Rune>, i: nat): nat
    requires i <= |rs|
  {
    |EncodeAll(rs[..i])|
  }

  lemma OffsetNext(rs: seq<Rune>, i: nat)
    requires i < |rs|
    ensures Offset(rs, i + 1) == Offset(rs, i) + Width(rs[i])
    ensures Offset(rs, i + 1) <= |EncodeAll(rs)|
    ensures EncodeAll(rs)[Offset(rs, i)..Offset(rs, i + 1)] == Encode(rs[i])
  {
    assert rs[..i + 1] == rs[..i] + [rs[i]] && rs == rs[..i + 1] + rs[i + 1..];
    EncodeConcat(rs[..i], [rs[i]]);
    EncodeConcat(rs[..i + 1], rs[i + 1..]);
    assert [rs[i]][1..] == [] && EncodeAll([rs[i]]) == Encode(rs[i]) + [];
  }

  lemma {:induction false} OffsetsRise(rs: seq<Rune>, i: nat, j: nat)
    requires i <= j <= |rs|
    ensures Offset(rs, i) + (j - i) <= Offset(rs, j)
    decreases j
  {
    if i < j {
      OffsetsRise(rs, i, j - 1);
      OffsetNext(rs, j - 1);
    }
  }

  lemma OffsetEnds(rs: seq<Rune>)
    ensures Offset(rs, 0) == 0 && Offset(rs, |rs|) == |EncodeAll(rs)|
  {
    assert rs[..|rs|] == rs && rs[..0] == [];
  }

  // Every byte position lies inside exactly one rune.
  lemma {:induction false} RuneAt(rs: seq<Rune>, b: nat, n: nat) returns (i: nat)
    requires n <= |rs| && b < Offset(rs, n)
    ensures i < n && Offset(rs, i) <= b < Offset(rs, i + 1)
    decreases n
  {
    assert n > 0 by { assert rs[..0] == []; }
    if b >= Offset(rs, n - 1) { i := n - 1; } else { i := RuneAt(rs, b, n - 1); }
  }

  // Self-synchronisation: a position that does not continue a rune starts one.
  lemma NotContinuingStarts(rs: seq<Rune>, b: nat) returns (i: nat)
    requires b < |EncodeAll(rs)| && !Continues(EncodeAll(rs)[b])
    ensures i < |rs| && Offset(rs, i) == b
  {
    OffsetEnds(rs);
    i := RuneAt(rs, b, |rs|);
    OffsetNext(rs, i);
    LeadTells(rs[i]);
    var e := EncodeAll(rs)[Offset(rs, i)..Offset(rs, i + 1)];
    assert e[b - Offset(rs, i)] == EncodeAll(rs)[b];
  }

  predicate OccursAt<T(==)>(s: seq<T>, p: seq<T>, k: nat) {
    k + |p| <= |s| && s[k..k + |p|] == p
  }

  lemma OccursSplit<T>(a: seq<T>, s: seq<T>, b: seq<T>, p: seq<T>)
    requires |a| == |b|
    ensures OccursAt(a + s, b + p, 0) <==> a == b && OccursAt(s, p, 0)
  {
    if |p| <= |s| {
      assert (a + s)[..|b + p|] == a + s[..|p|];
      if a + s[..|p|] == b + p {
        assert a == (a + s[..|p|])[..|a|] && b == (b + p)[..|a|];
        assert s[..|p|] == (a + s[..|p|])[|a|..] && p == (b + p)[|a|..];
      }
    }
  }

  lemma OccursBehind<T>(a: seq<T>, s: seq<T>, p: seq<T>)
    ensures OccursAt(a + s, p, |a|) <==> OccursAt(s, p, 0)
  {
    if |p| <= |s| { assert (a + s)[|a|..|a| + |p|] == s[..|p|]; }
  }

  lemma OccursFirst<T>(s: seq<T>, p: seq<T>)
    requires OccursAt(s, p, 0) && p != []
    ensures s[0] == p[0]
  {
    assert s[..|p|][0] == p[0];
  }

  // Encoded text begins with an encoded pattern only where the runes do.
  lemma {:induction false} PrefixRunes(rs: seq<Rune>, ps: seq<Rune>)
    ensures OccursAt(EncodeAll(rs), EncodeAll(ps), 0) <==> OccursAt(rs, ps, 0)
    decreases |ps|
  {
    if ps != [] && rs != [] {
      hide OccursAt, Encode;
      var r, q, rest, more := rs[0], ps[0], rs[1..], ps[1..];
      PrefixRunes(rest, more);
      OccursSplit([r], rest, [q], more);
      assert rs == [r] + rest && ps == [q] + more;
      if Width(r) == Width(q) {
        OccursSplit(Encode(r), EncodeAll(rest), Encode(q), EncodeAll(more));
        if Encode(r) == Encode(q) { EncodeInjective(r, q); }
      } else {
        LeadTells(r);
        LeadTells(q);
        if OccursAt(EncodeAll(rs), EncodeAll(ps), 0) { OccursFirst(EncodeAll(rs), EncodeAll(ps)); }
      }
    }
  }

  // At a rune boundary, bytes match exactly when runes do.
  lemma BytesMatchRunes(rs: seq<Rune>, ps: seq<Rune>, i: nat)
    requires i <= |rs|
    ensures OccursAt(EncodeAll(rs), EncodeAll(ps), Offset(rs, i)) <==> OccursAt(rs, ps, i)
  {
    hide OccursAt, EncodeAll;
    PrefixRunes(rs[i..], ps);
    assert rs == rs[..i] + rs[i..];
    EncodeConcat(rs[..i], rs[i..]);
    OccursBehind(EncodeAll(rs[..i]), EncodeAll(rs[i..]), EncodeAll(ps));
    OccursBehind(rs[..i], rs[i..], ps);
  }

  // A byte match of a non-empty pattern is a rune match: it cannot start inside a rune.
  lemma MatchAtBoundary(rs: seq<Rune>, ps: seq<Rune>, b: nat) returns (i: nat)
    requires ps != [] && OccursAt(EncodeAll(rs), EncodeAll(ps), b)
    ensures i < |rs| && Offset(rs, i) == b && OccursAt(rs, ps, i)
  {
    LeadTells(ps[0]);
    assert EncodeAll(ps)[0] == Encode(ps[0])[0];
    assert EncodeAll(rs)[b] == EncodeAll(rs)[b..b + |EncodeAll(ps)|][0];
    i := NotContinuingStarts(rs, b);
    BytesMatchRunes(rs, ps, i);
  }

  // ---- indexing a text ----

  predicate Ascii(s: Bytes) {
    forall i :: 0 <= i < |s| ==> s[i] < 0x80
  }

  method ScanAscii(s: Bytes) returns (ascii: bool)
    ensures ascii <==> Ascii(s)
  {
    var i := 0;
    while i < |s|
      invariant 0 <= i <= |s| && forall k :: 0 <= k < i ==> s[k] < 0x80
    {
      if s[i] >= 0x80 { return false; }
      i := i + 1;
    }
    ascii := true;
  }

  // In ASCII text a rune index is a byte index.
  lemma {:induction false} AsciiOffset(rs: seq<Rune>, i: nat)
    requires Ascii(EncodeAll(rs)) && i <= |rs|
    ensures Offset(rs, i) == i
    decreases i
  {
    if i == 0 {
      OffsetEnds(rs);
    } else {
      AsciiOffset(rs, i - 1);
      OffsetNext(rs, i - 1);
      LeadTells(rs[i - 1]);
      assert EncodeAll(rs)[Offset(rs, i - 1)] == Encode(rs[i - 1])[0];
    }
  }

  ghost predicate IndexOf(offs: seq<nat>, rs: seq<Rune>) {
    |offs| == |rs| + 1 && forall i :: 0 <= i <= |rs| ==> offs[i] == Offset(rs, i)
  }

  // The byte at a rune's offset tells where the next rune starts.
  lemma NextRune(rs: seq<Rune>, n: nat)
    requires n <= |rs| && Offset(rs, n) < |EncodeAll(rs)|
    ensures n < |rs| && Offset(rs, n + 1) <= |EncodeAll(rs)|
    ensures Offset(rs, n + 1) == Offset(rs, n) + LeadWidth(EncodeAll(rs)[Offset(rs, n)])
  {
    OffsetEnds(rs);
    OffsetNext(rs, n);
    LeadTells(rs[n]);
    var s, b := EncodeAll(rs), Offset(rs, n);
    assert s[b] == s[b..Offset(rs, n + 1)][0];
  }

  // The offset of each rune and, last, the length.
  method RuneOffsets(s: Bytes, ghost rs: seq<Rune>) returns (offs: seq<nat>)
    requires s == EncodeAll(rs)
    ensures IndexOf(offs, rs)
  {
    hide Offset, EncodeAll, Encode;
    offs := [];
    var b := 0;
    ghost var n := 0;
    OffsetEnds(rs);
    while b < |s|
      invariant n <= |rs| && b == Offset(rs, n) && b <= |s| && |offs| == n
      invariant forall i :: 0 <= i < n ==> offs[i] == Offset(rs, i)
      decreases |s| - b
    {
      hide *;
      NextRune(rs, n);
      offs := offs + [b];
      b := b + LeadWidth(s[b]);
      n := n + 1;
    }
    if n < |rs| { OffsetsRise(rs, n, |rs|); }
    offs := offs + [|s|];
  }

  // The first place the pattern's bytes occur at or after a byte position.
  method ByteIndex(s: Bytes, p: Bytes, start: nat) returns (k: int)
    requires start <= |s|
    ensures k == -1 ==> forall j :: start <= j <= |s| ==> !OccursAt(s, p, j)
    ensures k != -1 ==> start <= k <= |s| && OccursAt(s, p, k) && forall j :: start <= j < k ==> !OccursAt(s, p, j)
  {
    k := start;
    while k + |p| <= |s|
      invariant start <= k <= |s| + 1 && forall j :: start <= j < k ==> !OccursAt(s, p, j)
    {
      if s[k..k + |p|] == p { return; }
      k := k + 1;
    }
    k := -1;
  }

  function Clamp(i: int, n: nat): (c: nat)
    ensures c <= n && (0 <= i <= n ==> c == i)
  {
    if i < 0 then 0 else if i > n then n else i
  }

  // The least rune index at or after `from`, clamped, where the pattern's runes occur.
  ghost predicate FirstAt(rs: seq<Rune>, ps: seq<Rune>, from: int, r: int) {
    var f := Clamp(from, |rs|);
    if r == -1 then forall i :: f <= i <= |rs| ==> !OccursAt(rs, ps, i)
    else f <= r <= |rs| && OccursAt(rs, ps, r) && forall i :: f <= i < r ==> !OccursAt(rs, ps, i)
  }

  // What the byte search finds is where the rune search would look.
  lemma ByteFindsRune(rs: seq<Rune>, ps: seq<Rune>, f: nat, k: int) returns (r: int)
    requires f <= |rs| && (k == -1 || Offset(rs, f) <= k <= |EncodeAll(rs)|)
    requires k == -1 ==> forall j :: Offset(rs, f) <= j <= |EncodeAll(rs)| ==>
      !OccursAt(EncodeAll(rs), EncodeAll(ps), j)
    requires k != -1 ==> OccursAt(EncodeAll(rs), EncodeAll(ps), k) && forall j :: Offset(rs, f) <= j < k ==>
      !OccursAt(EncodeAll(rs), EncodeAll(ps), j)
    ensures FirstAt(rs, ps, f, r) && (k == -1 <==> r == -1)
    ensures r != -1 ==> 0 <= r <= |rs| && Offset(rs, r) == k
  {
    hide OccursAt, Offset;
    OffsetEnds(rs);
    forall i | f <= i <= |rs|
      ensures Offset(rs, f) <= Offset(rs, i) <= |EncodeAll(rs)|
      ensures OccursAt(EncodeAll(rs), EncodeAll(ps), Offset(rs, i)) <==> OccursAt(rs, ps, i)
    {
      OffsetsRise(rs, f, i);
      OffsetsRise(rs, i, |rs|);
      BytesMatchRunes(rs, ps, i);
    }
    if k == -1 { return -1; }
    if ps == [] {
      EmptyOccurs(EncodeAll(rs), Offset(rs, f));
      assert k == Offset(rs, f);
      return f;
    }
    r := MatchAtBoundary(rs, ps, k);
    if r < f { OffsetsRise(rs, r, f); }
    forall i | f <= i < r ensures !OccursAt(rs, ps, i) { OffsetsRise(rs, i, r); }
  }

  lemma EmptyOccurs(s: Bytes, k: nat)
    requires k <= |s|
    ensures OccursAt(s, EncodeAll([]), k)
  {
    assert s[k..k] == [];
  }

  // The binary search over offsets: where a known offset is listed.
  method FindOffset(offs: seq<nat>, b: nat, ghost rs: seq<Rune>, ghost r: nat) returns (lo: nat)
    requires IndexOf(offs, rs) && r <= |rs| && b == Offset(rs, r)
    ensures lo == r
  {
    hide Offset;
    lo := 0;
    var hi := |offs|;
    while lo < hi
      invariant lo <= r <= hi <= |offs|
      decreases hi - lo
    {
      var mid := (lo + hi) / 2;
      if offs[mid] >= b {
        if mid < r { OffsetsRise(rs, mid, r); }
        hi := mid;
      } else {
        if r <= mid { OffsetsRise(rs, r, mid); }
        lo := mid + 1;
      }
    }
  }

  // indexOf: exact on every valid text and pattern.
  method RuneIndexOf(s: Bytes, sub: Bytes, from: int, ghost rs: seq<Rune>, ghost ps: seq<Rune>) returns (r: int)
    requires s == EncodeAll(rs) && sub == EncodeAll(ps)
    ensures FirstAt(rs, ps, from, r)
  {
    hide OccursAt, Offset;
    OffsetEnds(rs);
    var ascii := ScanAscii(s);
    if ascii {
      AsciiOffset(rs, |rs|);
      var start := Clamp(from, |s|);
      AsciiOffset(rs, start);
      var k := ByteIndex(s, sub, start);
      ghost var found := ByteFindsRune(rs, ps, start, k);
      if k == -1 { return -1; }
      AsciiOffset(rs, found);
      return k;
    }
    var offs := RuneOffsets(s, rs);
    var start := Clamp(from, |offs| - 1);
    OffsetsRise(rs, start, |rs|);
    var k := ByteIndex(s, sub, offs[start]);
    ghost var found := ByteFindsRune(rs, ps, start, k);
    if k == -1 { return -1; }
    r := FindOffset(offs, k, rs, found);
  }

  // A start before the text is its beginning; past its end only the empty pattern is found, there.
  lemma FirstOutside(rs: seq<Rune>, ps: seq<Rune>, from: int, r: int)
    requires FirstAt(rs, ps, from, r)
    ensures from < 0 ==> FirstAt(rs, ps, 0, r)
    ensures from > |rs| ==> r == if ps == [] then |rs| else -1
  {
    assert from > |rs| && ps == [] ==> OccursAt(rs, ps, |rs|);
  }

  // The runes of a slice, both ends clamped and the end no less than the start.
  function Sliced<T>(rs: seq<T>, start: int, end: int): seq<T> {
    var a, b := Clamp(start, |rs|), Clamp(end, |rs|);
    if b < a then [] else rs[a..b]
  }

  // A slice is the runes whose index is from the start up to the end, in order.
  lemma SlicedRunes<T>(rs: seq<T>, start: int, end: int, i: nat)
    requires i < |rs|
    ensures var skipped := if start < 0 then 0 else start; var out := Sliced(rs, start, end);
      if start <= i < end then i - skipped < |out| && out[i - skipped] == rs[i]
      else i < skipped || |out| <= i - skipped
    ensures |Sliced(rs, start, end)| <= |rs|
  {
  }

  method RuneSlice(s: Bytes, start: int, end: int, ghost rs: seq<Rune>) returns (out: Bytes)
    requires s == EncodeAll(rs)
    ensures out == EncodeAll(Sliced(rs, start, end))
  {
    hide Offset;
    OffsetEnds(rs);
    var ascii := ScanAscii(s);
    if ascii { AsciiOffset(rs, |rs|); }
    var offs := [];
    if !ascii { offs := RuneOffsets(s, rs); }
    var n := if ascii then |s| else |offs| - 1;
    var a, b := Clamp(start, n), Clamp(end, n);
    if b < a { b := a; }
    SliceBytes(rs, a, b);
    if ascii {
      AsciiOffset(rs, a);
      AsciiOffset(rs, b);
      return s[a..b];
    }
    out := s[offs[a]..offs[b]];
  }

  lemma SliceBytes(rs: seq<Rune>, a: nat, b: nat)
    requires a <= b <= |rs|
    ensures Offset(rs, a) <= Offset(rs, b) <= |EncodeAll(rs)|
    ensures EncodeAll(rs)[Offset(rs, a)..Offset(rs, b)] == EncodeAll(rs[a..b])
  {
    hide EncodeAll;
    var x, y, z := rs[..a], rs[a..b], rs[b..];
    assert rs == (x + y) + z && rs[..b] == x + y;
    EncodeConcat(x + y, z);
    EncodeConcat(x, y);
    var ex, ey, ez := EncodeAll(x), EncodeAll(y), EncodeAll(z);
    assert ((ex + ey) + ez)[|ex|..|ex| + |ey|] == ey;
  }

  // Slicing at a found index gives the pattern back.
  lemma FoundSlicesBack(rs: seq<Rune>, ps: seq<Rune>, from: int, r: int)
    requires FirstAt(rs, ps, from, r) && r != -1
    ensures Sliced(rs, r, r + |ps|) == ps
  {
  }
}
