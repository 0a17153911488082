// Retyping a folded literal to the column it is compared with, and when the comparison survives
// (runtime/region.go, runtime/server.go).
module LiteralTyping {
  import opened TextNumbers
  import opened TextOrder
  import opened Expressions

  // Relation and int columns hold ints, and so do money and date columns, which litFor spells as text.
  datatype FieldType = IntField | BoolField | TextField | MoneyField

  function LitFor(f: FieldType, s: string): Expr {
    Lit(TypedAs(f, s))
  }

  function TypedAs(f: FieldType, s: string): Value {
    match f
    case IntField => VInt(Atoi(s))
    case BoolField => VBool(s == "true" || s == "1")
    case _ => VText(s)
  }

  predicate Scalar(v: Value) {
    !v.VList? && !v.VRec?
  }

  // What a column stores: a value of its type, or nothing.
  predicate Fits(f: FieldType, x: Value) {
    x.VNil? || match f
               case BoolField => x.VBool?
               case TextField => x.VText?
               case _ => x.VInt?
  }

  // ---- equality ----

  predicate SameKind(a: Value, b: Value) {
    (a.VInt? && b.VInt?) || (a.VBool? && b.VBool?) || (a.VNil? && b.VNil?)
  }

  // Comparing a stored value with a literal is comparing their texts: one is a text, both are of one
  // kind, or one counts as true and the other does not.
  predicate ByText(stored: Value, lit: Value) {
    stored.VText? || lit.VText? || SameKind(stored, lit) || Truthy(stored) != Truthy(lit)
  }

  // Exactly then: otherwise equality holds, on one side at least, of two values with different texts.
  lemma ByTextExact(stored: Value, lit: Value)
    requires Scalar(stored) && Scalar(lit)
    ensures ByText(stored, lit) <==> SameEquality(stored, lit, VText(ToStr(lit)))
  {
    if stored.VInt? && lit.VInt? {
      ItoaInjective(stored.n, lit.n);
    } else if stored.VInt? {
      ItoaIsNumber(stored.n);
    } else if lit.VInt? {
      ItoaIsNumber(lit.n);
    }
  }

  lemma ItoaIsNumber(n: int)
    ensures Itoa(n) != "true" && Itoa(n) != "false"
  {
    var s := Digits(if n < 0 then -n else n);
    assert s[0] in s;
    assert Itoa(n)[0] == '-' || IsDigit(Itoa(n)[0]);
  }

  // Standing on either side of an equality with `x`, the two values answer alike.
  predicate SameEquality(x: Value, v: Value, w: Value) {
    Equal(x, v) == Equal(x, w) && Equal(v, x) == Equal(w, x)
  }

  // What a caller can check of a stored value and a literal before the literal is retyped.
  predicate EqualityKept(f: FieldType, x: Value, v: Value) {
    match f
    case IntField =>
      && (v.VText? && x.VInt? ==> x.n != Atoi(v.s) || Itoa(Atoi(v.s)) == v.s)
      && (v.VText? && x.VNil? ==> v.s == "" || Atoi(v.s) != 0)
      && (v.VBool? ==> !v.b)
    case BoolField =>
      && (v.VText? && x.VBool? ==> if x.b then v.s != "1" else v.s == "true" || v.s == "false" || v.s == "1")
      && (v.VText? && x.VNil? ==> v.s == "" || v.s == "true" || v.s == "1")
      && (v.VInt? ==> v.n == 0 || v.n == 1)
    case _ => ByText(x, v)
  }

  lemma WordIsZero(b: bool)
    ensures Atoi(ToStr(VBool(b))) == 0
  {
    var s := ToStr(VBool(b));
    assert s[0] in s && !IsDigit(s[0]) && s[0] != '-' && s[0] != '+';
  }

  lemma IntEqualityKept(x: Value, v: Value)
    requires Fits(IntField, x) && Scalar(v)
    ensures EqualityKept(IntField, x, v) <==> SameEquality(x, v, TypedAs(IntField, ToStr(v)))
  {
    EmptyIsZero();
    hide Atoi, Itoa;
    match v
    case VInt(n) => AtoiItoa(n);
    case VBool(b) => WordIsZero(b);
    case VText(t) =>
      if x.VInt? { ItoaInjective(x.n, Atoi(t)); AtoiItoa(x.n); }
    case VNil =>
  }

  lemma EmptyIsZero()
    ensures Atoi("") == 0
  {
  }

  lemma BoolEqualityKept(x: Value, v: Value)
    requires Fits(BoolField, x) && Scalar(v)
    ensures EqualityKept(BoolField, x, v) <==> SameEquality(x, v, TypedAs(BoolField, ToStr(v)))
  {
    if v.VInt? {
      ItoaIsNumber(v.n);
      ItoaInjective(v.n, 1);
      assert Itoa(1) == "1";
      hide Itoa;
    }
  }

  // Exactly then does retyping keep the equality.
  lemma EqualityKeptExact(f: FieldType, x: Value, v: Value)
    requires Fits(f, x) && Scalar(v)
    ensures EqualityKept(f, x, v) <==> SameEquality(x, v, TypedAs(f, ToStr(v)))
  {
    hide EqualityKept, SameEquality;
    match f
    case IntField => IntEqualityKept(x, v);
    case BoolField => BoolEqualityKept(x, v);
    case _ => TextEqualityKept(f, x, v);
  }

  lemma TextEqualityKept(f: FieldType, x: Value, v: Value)
    requires (f.TextField? || f.MoneyField?) && Scalar(x) && Scalar(v)
    ensures EqualityKept(f, x, v) <==> SameEquality(x, v, TypedAs(f, ToStr(v)))
  {
    ByTextExact(x, v);
  }

  // What can be checked of the literal alone.
  predicate KeptOnColumn(f: FieldType, v: Value) {
    match f
    case IntField => (v.VText? ==> Itoa(Atoi(v.s)) == v.s && v.s != "0") && (v.VBool? ==> !v.b)
    case BoolField => (v.VText? ==> v.s == "true") && (v.VInt? ==> v.n == 0 || v.n == 1)
    case TextField => (v.VInt? ==> v.n != 0) && (v.VBool? ==> v.b)
    case MoneyField => v.VText? || (v.VInt? && v.n != 0)
  }

  // Equality survives retyping on everything the column can store, nothing included, exactly then.
  lemma ColumnKept(f: FieldType, v: Value)
    requires Scalar(v)
    ensures (forall x :: Fits(f, x) ==> SameEquality(x, v, TypedAs(f, ToStr(v)))) <==> KeptOnColumn(f, v)
  {
    forall x | Fits(f, x) ensures EqualityKept(f, x, v) <==> SameEquality(x, v, TypedAs(f, ToStr(v))) {
      EqualityKeptExact(f, x, v);
    }
    if KeptOnColumn(f, v) { StoredSome(f, v); }
    if forall x :: Fits(f, x) ==> EqualityKept(f, x, v) { StoredAll(f, v); }
  }

  lemma StoredAll(f: FieldType, v: Value)
    requires Scalar(v) && forall x :: Fits(f, x) ==> EqualityKept(f, x, v)
    ensures KeptOnColumn(f, v)
  {
    assert EqualityKept(f, VNil, v);
    match f
    case IntField =>
      if v.VText? { assert EqualityKept(f, VInt(Atoi(v.s)), v); assert Itoa(0) == "0"; AtoiItoa(0); EmptyIsZero(); }
    case BoolField => assert EqualityKept(f, VBool(true), v) && EqualityKept(f, VBool(false), v);
    case TextField =>
    case MoneyField => assert EqualityKept(f, VInt(0), v) && EqualityKept(f, VInt(1), v);
  }

  lemma StoredSome(f: FieldType, v: Value)
    requires Scalar(v) && KeptOnColumn(f, v)
    ensures forall x :: Fits(f, x) ==> EqualityKept(f, x, v)
  {
    assert Itoa(0) == "0";
  }

  // ---- order ----

  predicate SameOrder(x: Value, v: Value, w: Value) {
    && Less(x, v) == Less(x, w) && Less(v, x) == Less(w, x)
    && LessEq(x, v) == LessEq(x, w) && LessEq(v, x) == LessEq(w, x)
  }

  // The literal already has the column's form, two texts are compared, a number meets one spelled 0 or
  // 1, or a null meets one it stands the same way to.
  predicate OrderKept(f: FieldType, x: Value, v: Value) {
    || TypedAs(f, ToStr(v)) == v
    || (x.VText? && (f.TextField? || f.MoneyField?))
    || (x.VInt? && !f.BoolField? && (ToStr(v) == "0" || ToStr(v) == "1"))
    || (x.VNil? && !f.BoolField? && NullOrderKept(f, v))
  }

  // A null comes before every positive number and every text but the empty one.
  predicate NullOrderKept(f: FieldType, v: Value) {
    match v
    case VNil => true
    case VText(s) => !f.IntField? || s == "" || Atoi(s) > 0
    case VInt(n) => f.IntField? || n > 0
    case VBool(b) => b != f.IntField?
    case _ => false
  }

  lemma NullOrderExact(f: FieldType, v: Value)
    requires Scalar(v) && !f.BoolField?
    ensures OrderKept(f, VNil, v) <==> SameOrder(VNil, v, TypedAs(f, ToStr(v)))
  {
    EmptyIsZero();
    if v.VBool? { WordIsZero(v.b); }
    if v.VInt? { AtoiItoa(v.n); }
    hide Itoa, Atoi;
  }

  lemma OrderKeptHolds(f: FieldType, x: Value, v: Value)
    requires OrderKept(f, x, v) && Scalar(v)
    ensures SameOrder(x, v, TypedAs(f, ToStr(v)))
  {
    if x.VInt? && (ToStr(v) == "0" || ToStr(v) == "1") {
      assert Itoa(0) == "0" && Itoa(1) == "1" && Atoi("0") == 0 && Atoi("1") == 1 by { AtoiItoa(0); AtoiItoa(1); }
      if v.VInt? { ItoaInjective(v.n, 0); ItoaInjective(v.n, 1); }
      if v.VBool? { assert "true" != "0"; }
      var k := if ToStr(v) == "0" then 0 else 1;
      SmallOrder(x.n, k);
      ItoaInjective(x.n, k);
    }
    if x.VNil? && !f.BoolField? { NullOrderExact(f, v); }
  }

  lemma {:induction false} LeadingDigit(n: nat)
    requires n > 0
    ensures Digits(n)[0] >= '1' && (n >= 10 ==> |Digits(n)| >= 2)
  {
    if n >= 10 { LeadingDigit(n / 10); }
  }

  // Texts of ints order like the ints around 0 and 1.
  lemma SmallOrder(n: int, k: int)
    requires k == 0 || k == 1
    ensures (LessText(Itoa(n), Itoa(k)) <==> n < k) && (LessText(Itoa(k), Itoa(n)) <==> k < n)
  {
    assert Itoa(k) == [DigitOf(k)];
    if n < 0 {
      assert Itoa(n)[0] == '-';
    } else if n > 0 {
      LeadingDigit(n);
      var s := Itoa(n);
      assert n < 10 ==> s == [DigitOf(n)];
      assert [DigitOf(k)][1..] == [];
    }
  }

  // `k` with a digit 1 put before its first.
  function OneBefore(k: nat): nat {
    if k < 10 then 10 + k else 10 * OneBefore(k / 10) + k % 10
  }

  lemma {:induction false} OneBeforeDigits(k: nat)
    ensures OneBefore(k) > k && Digits(OneBefore(k)) == ['1'] + Digits(k)
  {
    if k < 10 {
      assert Digits(1) == [DigitOf(1)] && (10 + k) / 10 == 1 && (10 + k) % 10 == k;
    } else {
      OneBeforeDigits(k / 10);
      var m, d := OneBefore(k / 10), k % 10;
      assert (10 * m + d) / 10 == m && (10 * m + d) % 10 == d;
      assert Digits(10 * m + d) == Digits(m) + [DigitOf(d)];
    }
  }

  lemma {:induction false} PrefixLess(a: string, b: string)
    requires b != []
    ensures LessText(a, a + b)
  {
    if a != [] {
      PrefixLess(a[1..], b);
      assert (a + b)[1..] == a[1..] + b;
    }
  }

  // Any other int has one its text is ordered wrongly against.
  lemma OrderedWrongly(k: int) returns (n: int)
    requires k != 0 && k != 1
    ensures LessText(Itoa(n), Itoa(k)) != (n < k) || LessText(Itoa(k), Itoa(n)) != (k < n)
  {
    if k < 0 {
      n := 10 * k;
      assert Digits(-n) == Digits(-k) + [DigitOf(0)];
      PrefixLess(Itoa(k), [DigitOf(0)]);
      assert Itoa(n) == Itoa(k) + [DigitOf(0)];
    } else if Itoa(k)[0] == '1' {
      n := 2;
      LeadingDigit(k);
      assert Itoa(2) == "2";
    } else {
      n := OneBefore(k);
      OneBeforeDigits(k);
      LeadingDigit(k);
    }
  }

  predicate OrderKeptOnColumn(f: FieldType, v: Value) {
    match f
    case IntField => v.VInt? || (v.VText? && v.s == "1")
    case TextField => v.VText? || (v.VInt? && v.n > 0)
    case _ => v.VText? || v == VInt(1)
  }

  // An order comparison with everything the column can store, nothing included, survives retyping if and
  // only if the literal has the column's form, is 1, or is a positive number meeting texts.
  lemma OrderKeptExact(f: FieldType, v: Value)
    requires !f.BoolField? && (v.VInt? || v.VText?)
    ensures (forall x :: Fits(f, x) ==> SameOrder(x, v, TypedAs(f, ToStr(v)))) <==> OrderKeptOnColumn(f, v)
  {
    assert Itoa(0) == "0" && Itoa(1) == "1" && Atoi("0") == 0 && Atoi("1") == 1 by { AtoiItoa(0); AtoiItoa(1); }
    if v.VInt? { AtoiItoa(v.n); ItoaInjective(v.n, 0); ItoaInjective(v.n, 1); }
    if OrderKeptOnColumn(f, v) {
      forall x | Fits(f, x) ensures SameOrder(x, v, TypedAs(f, ToStr(v))) { OrderKeptHolds(f, x, v); }
    } else {
      NullOrderExact(f, v);
      assert Fits(f, VNil);
      if OrderKept(f, VNil, v) {
        var n := SomeWrong(f, v);
        assert Fits(f, VInt(n));
      }
    }
  }

  // A number column and a literal spelled neither 0 nor 1 nor in the column's form.
  lemma SomeWrong(f: FieldType, v: Value) returns (n: int)
    requires (f.IntField? || f.MoneyField?) && (v.VInt? || v.VText?)
    requires TypedAs(f, ToStr(v)) != v && ToStr(v) != "0" && ToStr(v) != "1"
    ensures !SameOrder(VInt(n), v, TypedAs(f, ToStr(v)))
  {
    if f.IntField? {
      if v.VInt? { AtoiItoa(v.n); }
      n := OrderedWronglyBy(v.s, Atoi(v.s));
    } else {
      n := OrderedWronglyBy(Itoa(v.n), v.n);
    }
  }

  lemma OrderedWronglyBy(t: string, k: int) returns (n: int)
    requires t != "0" && t != "1" && (t == Itoa(k) || k == Atoi(t))
    ensures LessText(Itoa(n), t) != (n < k) || LessText(t, Itoa(n)) != (k < n)
  {
    if t == Itoa(k) {
      assert Itoa(0) == "0" && Itoa(1) == "1";
      n := OrderedWrongly(k);
    } else {
      n := k;
      LessTextTotal(Itoa(k), t);
    }
  }
}
