// The order of texts: Go compares strings unit by unit, a proper prefix first.
module TextOrder {

  predicate LessText(a: string, b: string) {
    b != [] && (a == [] || a[0] < b[0] || (a[0] == b[0] && LessText(a[1..], b[1..])))
  }

  lemma {:induction false} LessTextAsymmetric(a: string, b: string)
    ensures !(LessText(a, b) && LessText(b, a))
  {
    if a != [] && b != [] { LessTextAsymmetric(a[1..], b[1..]); }
  }

  lemma {:induction false} LessTextTotal(a: string, b: string)
    ensures LessText(a, b) || LessText(b, a) || a == b
  {
    if a != [] && b != [] {
      LessTextTotal(a[1..], b[1..]);
      assert a == [a[0]] + a[1..] && b == [b[0]] + b[1..];
    }
  }

  lemma {:induction false} LessTextTransitive(a: string, b: string, c: string)
    requires LessText(a, b) && LessText(b, c)
    ensures LessText(a, c)
  {
    if a != [] && a[0] == b[0] == c[0] { LessTextTransitive(a[1..], b[1..], c[1..]); }
  }

  // A proper prefix, or smaller where the two first differ.
  ghost predicate FirstDifferenceLess(a: string, b: string) {
    exists i :: 0 <= i <= |a| && i < |b| && a[..i] == b[..i] && (i == |a| || a[i] < b[i])
  }

  lemma {:induction false} LessTextExact(a: string, b: string)
    ensures LessText(a, b) <==> FirstDifferenceLess(a, b)
  {
    if a == [] || b == [] {
      assert b != [] ==> a[..0] == b[..0];
    } else if a[0] == b[0] {
      LessTextExact(a[1..], b[1..]);
      PastFirst(a, b);
    } else {
      assert a[..0] == b[..0];
      forall i | 0 < i <= |a| && i < |b| ensures a[..i] != b[..i] { Differ(a, b, i); }
    }
  }

  lemma Differ(a: string, b: string, i: nat)
    requires 0 < i <= |a| && i <= |b| && a[0] != b[0]
    ensures a[..i] != b[..i]
  {
    assert a[..i][0] == a[0] && b[..i][0] == b[0];
  }

  lemma PastFirst(a: string, b: string)
    requires a != [] && b != [] && a[0] == b[0]
    ensures FirstDifferenceLess(a, b) <==> FirstDifferenceLess(a[1..], b[1..])
  {
    var c, d := a[1..], b[1..];
    assert forall i :: 0 <= i <= |c| && i <= |d| ==> a[..i + 1] == [a[0]] + c[..i] && b[..i + 1] == [b[0]] + d[..i];
    if FirstDifferenceLess(c, d) {
      var i :| 0 <= i <= |c| && i < |d| && c[..i] == d[..i] && (i == |c| || c[i] < d[i]);
      assert a[..i + 1] == b[..i + 1];
    }
    if FirstDifferenceLess(a, b) {
      var i :| 0 <= i <= |a| && i < |b| && a[..i] == b[..i] && (i == |a| || a[i] < b[i]);
      assert c[..i - 1] == a[..i][1..] && d[..i - 1] == b[..i][1..];
    }
  }
}
