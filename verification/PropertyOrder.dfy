/**
 The order in which JavaScript lists the keys of an object (section 10.1.11 of ECMA-262): array indices
 first, by number, then the other keys as they were created. `normalize` creates the keys sorted by code
 unit, so what JSON.stringify then walks is sorted by one fixed total order, `Before`.
 */
module PropertyOrder {
  import opened JsonText

  // ---- orders on keys ----------------------------------------------------------------------------

  /** Array#sort's default order on strings: by code unit. */
  predicate CodeUnitLess(a: JsString, b: JsString) {
    if b == [] then false
    else if a == [] then true
    else if a[0] != b[0] then a[0] < b[0]
    else CodeUnitLess(a[1..], b[1..])
  }

  function DecimalValue(s: JsString): nat
    requires forall k :: 0 <= k < |s| ==> IsDigit(s[k])
  {
    if s == [] then 0
    else
      var last: int := s[|s| - 1];
      assert IsDigit(s[|s| - 1]);
      10 * DecimalValue(s[..|s| - 1]) + (last - 0x30)
  }

  const LARGEST_INDEX := 0xffff_fffe

  /** An array index: the decimal text, without leading zeros, of a number up to 2^32 - 2. */
  predicate IsIndex(s: JsString) {
    && s != []
    && (forall k :: 0 <= k < |s| ==> IsDigit(s[k]))
    && (s[0] == 0x30 ==> |s| == 1)
    && DecimalValue(s) <= LARGEST_INDEX
  }

  /** The order JSON.stringify meets the keys in, once they were created sorted by code unit. */
  predicate Before(a: JsString, b: JsString) {
    if IsIndex(a) then !IsIndex(b) || DecimalValue(a) < DecimalValue(b)
    else !IsIndex(b) && CodeUnitLess(a, b)
  }

  lemma {:induction false} CodeUnitOrder(a: JsString, b: JsString, c: JsString)
    ensures !CodeUnitLess(a, a)
    ensures a != b ==> CodeUnitLess(a, b) || CodeUnitLess(b, a)
    ensures CodeUnitLess(a, b) && CodeUnitLess(b, c) ==> CodeUnitLess(a, c)
    decreases |a|
  {
    if a != [] {
      CodeUnitOrder(a[1..], if b == [] then [] else b[1..], if c == [] then [] else c[1..]);
      if b != [] { assert a == [a[0]] + a[1..] && b == [b[0]] + b[1..]; }
    }
  }

  /** Ascending by code unit: a is a proper prefix of b, or has the smaller unit where they first differ. */
  predicate Ascends(a: JsString, b: JsString) {
    || (|a| < |b| && a == b[..|a|])
    || exists k :: 0 <= k < |a| && k < |b| && a[..k] == b[..k] && a[k] < b[k]
  }

  lemma FirstUnit(a: JsString, b: JsString)
    requires a != [] && b != [] && a[0] != b[0]
    ensures Ascends(a, b) <==> a[0] < b[0]
  {
    assert forall k :: 0 < k <= |a| && k <= |b| && a[..k] == b[..k] ==> a[..k][0] == b[..k][0];
    if a[0] < b[0] { assert a[..0] == b[..0]; }
  }

  lemma SharedUnit(a: JsString, b: JsString)
    requires a != [] && b != [] && a[0] == b[0]
    ensures Ascends(a, b) <==> Ascends(a[1..], b[1..])
  {
    var a', b' := a[1..], b[1..];
    assert forall k :: 0 < k <= |a| && k <= |b| ==> a[..k] == [a[0]] + a'[..k - 1] && b[..k] == [b[0]] + b'[..k - 1];
    assert a == [a[0]] + a';
    if k :| 0 <= k < |a| && k < |b| && a[..k] == b[..k] && a[k] < b[k] {
      assert a'[..k - 1] == a[..k][1..] == b[..k][1..] == b'[..k - 1];
      assert a'[k - 1] < b'[k - 1];
    }
    if k :| 0 <= k < |a'| && k < |b'| && a'[..k] == b'[..k] && a'[k] < b'[k] {
      assert a[..k + 1] == b[..k + 1] && a[k + 1] < b[k + 1];
    }
    if |a| < |b| && a == b[..|a|] { assert a' == b[..|a|][1..] == b'[..|a'|]; }
  }

  /** The sort compares by ascending code units. */
  lemma {:induction false} CodeUnitLessExactly(a: JsString, b: JsString)
    ensures CodeUnitLess(a, b) <==> Ascends(a, b)
    decreases |a|
  {
    if b == [] {
    } else if a == [] {
      assert b[..0] == a;
    } else if a[0] != b[0] {
      FirstUnit(a, b);
    } else {
      SharedUnit(a, b);
      CodeUnitLessExactly(a[1..], b[1..]);
    }
  }

  lemma {:induction false} DecimalIsPositive(a: JsString)
    requires forall k :: 0 <= k < |a| ==> IsDigit(a[k])
    requires a != [] && a[0] != 0x30
    ensures DecimalValue(a) > 0
    decreases |a|
  {
    if |a| > 1 { DecimalIsPositive(a[..|a| - 1]); }
  }

  /** Equal numbers have equal texts when neither has a leading zero. */
  lemma {:induction false} DecimalIsInjective(a: JsString, b: JsString)
    requires forall k :: 0 <= k < |a| ==> IsDigit(a[k])
    requires forall k :: 0 <= k < |b| ==> IsDigit(b[k])
    requires a != [] ==> a[0] != 0x30
    requires b != [] ==> b[0] != 0x30
    requires DecimalValue(a) == DecimalValue(b)
    ensures a == b
    decreases |a|
  {
    if a == [] {
      if b != [] { DecimalIsPositive(b); }
    } else if b == [] {
      DecimalIsPositive(a);
    } else {
      var a', b' := a[..|a| - 1], b[..|b| - 1];
      assert a == a' + [a[|a| - 1]] && b == b' + [b[|b| - 1]];
      DecimalIsInjective(a', b');
    }
  }

  lemma IndexOrder(a: JsString, b: JsString)
    requires IsIndex(a) && IsIndex(b) && DecimalValue(a) == DecimalValue(b)
    ensures a == b
  {
    if a[0] == 0x30 || b[0] == 0x30 {
      if a[0] != 0x30 { DecimalIsPositive(a); }
      if b[0] != 0x30 { DecimalIsPositive(b); }
      if a[0] == 0x30 { assert a == [a[0]]; assert DecimalValue(a) == 0; }
      if b[0] == 0x30 { assert b == [b[0]]; assert DecimalValue(b) == 0; }
      assert a[0] == 0x30 && b[0] == 0x30;
    } else {
      DecimalIsInjective(a, b);
    }
  }

  /** `Before` is a strict total order. */
  lemma BeforeIsTotalOrder(a: JsString, b: JsString, c: JsString)
    ensures !Before(a, a)
    ensures a != b ==> Before(a, b) || Before(b, a)
    ensures Before(a, b) && Before(b, c) ==> Before(a, c)
  {
    CodeUnitOrder(a, b, c);
    if IsIndex(a) && IsIndex(b) && DecimalValue(a) == DecimalValue(b) { IndexOrder(a, b); }
  }

  // ---- the same order, told by the texts alone ----------------------------------------------------

  predicate AllDigits(s: JsString) {
    forall k :: 0 <= k < |s| ==> IsDigit(s[k])
  }

  lemma AscendsAtEnd(a: JsString, x: CodeUnit, b: JsString, y: CodeUnit)
    requires |a| == |b|
    ensures Ascends(a + [x], b + [y]) <==> Ascends(a, b) || (a == b && x < y)
  {
    var a', b' := a + [x], b + [y];
    assert forall k :: 0 <= k <= |a| ==> a'[..k] == a[..k] && b'[..k] == b[..k];
    if Ascends(a, b) {
      var k :| 0 <= k < |a| && k < |b| && a[..k] == b[..k] && a[k] < b[k];
      assert a'[..k] == b'[..k] && a'[k] < b'[k];
    }
    if a == b && x < y { assert a'[..|a|] == b'[..|a|] && a'[|a|] < b'[|a|]; }
  }

  /** Numbers of as many digits are ordered like their texts. */
  lemma {:induction false} SameLengthOrder(a: JsString, b: JsString)
    requires AllDigits(a) && AllDigits(b) && |a| == |b|
    ensures DecimalValue(a) < DecimalValue(b) <==> Ascends(a, b)
    ensures DecimalValue(a) == DecimalValue(b) <==> a == b
    decreases |a|
  {
    if a != [] {
      var a', b' := a[..|a| - 1], b[..|b| - 1];
      var x, y := a[|a| - 1], b[|b| - 1];
      assert a == a' + [x] && b == b' + [y];
      assert IsDigit(x) && IsDigit(y);
      SameLengthOrder(a', b');
      AscendsAtEnd(a', x, b', y);
    }
  }

  function Pow10(n: nat): nat {
    if n == 0 then 1 else 10 * Pow10(n - 1)
  }

  lemma {:induction false} Pow10Grows(m: nat, n: nat)
    requires m <= n
    ensures Pow10(m) <= Pow10(n)
    decreases n
  {
    if m < n { Pow10Grows(m, n - 1); }
  }

  lemma {:induction false} DecimalBounds(s: JsString)
    requires AllDigits(s)
    ensures DecimalValue(s) < Pow10(|s|)
    ensures s != [] && s[0] != 0x30 ==> DecimalValue(s) >= Pow10(|s| - 1)
    decreases |s|
  {
    if s != [] {
      assert IsDigit(s[|s| - 1]);
      DecimalBounds(s[..|s| - 1]);
    }
  }

  /** Without leading zeros, the shorter number is the smaller one. */
  lemma ShorterIsSmaller(a: JsString, b: JsString)
    requires AllDigits(a) && AllDigits(b) && |a| < |b| && b[0] != 0x30
    ensures DecimalValue(a) < DecimalValue(b)
  {
    DecimalBounds(a);
    DecimalBounds(b);
    Pow10Grows(|a|, |b| - 1);
  }

  /** Decimal text without leading zeros. */
  predicate IsDecimal(s: JsString) {
    s != [] && AllDigits(s) && (s[0] == 0x30 ==> |s| == 1)
  }

  /** Shorter, or as long and ascending. */
  predicate ShortlexLess(a: JsString, b: JsString) {
    |a| < |b| || (|a| == |b| && Ascends(a, b))
  }

  lemma DecimalOrder(a: JsString, b: JsString)
    requires IsDecimal(a) && IsDecimal(b)
    ensures DecimalValue(a) < DecimalValue(b) <==> ShortlexLess(a, b)
  {
    if |a| == |b| {
      SameLengthOrder(a, b);
    } else if |a| < |b| {
      ShorterIsSmaller(a, b);
    } else {
      ShorterIsSmaller(b, a);
    }
  }

  /** 4294967294, the largest array index. */
  const LARGEST_INDEX_TEXT: JsString := [0x34, 0x32, 0x39, 0x34, 0x39, 0x36, 0x37, 0x32, 0x39, 0x34]

  lemma LargestIndexText()
    ensures IsDecimal(LARGEST_INDEX_TEXT) && DecimalValue(LARGEST_INDEX_TEXT) == LARGEST_INDEX
  {
    var t := LARGEST_INDEX_TEXT;
    assert t[..10] == t;
    assert DecimalValue(t[..0]) == 0;
    assert t[..1][..0] == t[..0] && DecimalValue(t[..1]) == 4;
    assert t[..2][..1] == t[..1] && DecimalValue(t[..2]) == 42;
    assert t[..3][..2] == t[..2] && DecimalValue(t[..3]) == 429;
    assert t[..4][..3] == t[..3] && DecimalValue(t[..4]) == 4294;
    assert t[..5][..4] == t[..4] && DecimalValue(t[..5]) == 42949;
    assert t[..6][..5] == t[..5] && DecimalValue(t[..6]) == 429496;
    assert t[..7][..6] == t[..6] && DecimalValue(t[..7]) == 4294967;
    assert t[..8][..7] == t[..7] && DecimalValue(t[..8]) == 42949672;
    assert t[..9][..8] == t[..8] && DecimalValue(t[..9]) == 429496729;
    assert t[..10][..9] == t[..9] && DecimalValue(t[..10]) == 4294967294;
  }

  /** Decimal text not above 4294967294. */
  predicate IsIndexText(s: JsString) {
    IsDecimal(s) && !ShortlexLess(LARGEST_INDEX_TEXT, s)
  }

  lemma IsIndexExactly(s: JsString)
    ensures IsIndex(s) <==> IsIndexText(s)
  {
    LargestIndexText();
    if IsDecimal(s) { DecimalOrder(LARGEST_INDEX_TEXT, s); }
  }

  /** The order of the keys in a canonical text: array indices by number, then the others by code unit. */
  predicate KeyBefore(a: JsString, b: JsString) {
    if IsIndexText(a) then !IsIndexText(b) || ShortlexLess(a, b) else !IsIndexText(b) && Ascends(a, b)
  }

  lemma BeforeExactly(a: JsString, b: JsString)
    ensures Before(a, b) <==> KeyBefore(a, b)
  {
    IsIndexExactly(a);
    IsIndexExactly(b);
    CodeUnitLessExactly(a, b);
    if IsIndex(a) && IsIndex(b) { DecimalOrder(a, b); }
  }

  // ---- property lists ----------------------------------------------------------------------------

  predicate Distinct(props: seq<Prop>) {
    forall j, k :: 0 <= j < k < |props| ==> props[j].key != props[k].key
  }

  type Order = (JsString, JsString) -> bool

  predicate SortedBy(less: Order, props: seq<Prop>) {
    forall j, k :: 0 <= j < k < |props| ==> less(props[j].key, props[k].key)
  }

  function Inserted(less: Order, p: Prop, props: seq<Prop>): seq<Prop> {
    if props == [] then [p]
    else if less(props[0].key, p.key) then [props[0]] + Inserted(less, p, props[1..])
    else [p] + props
  }

  /** Array#sort on the keys. */
  function Sorted(less: Order, props: seq<Prop>): seq<Prop> {
    if props == [] then [] else Inserted(less, props[0], Sorted(less, props[1..]))
  }

  function Filtered(keep: Prop -> bool, props: seq<Prop>): seq<Prop> {
    if props == [] then []
    else (if keep(props[0]) then [props[0]] else []) + Filtered(keep, props[1..])
  }

  /** OrdinaryOwnPropertyKeys: the array indices by number, then the others as they were created. */
  function OwnOrder(props: seq<Prop>): seq<Prop> {
    Sorted(Before, Filtered((p: Prop) => IsIndex(p.key), props)) + Filtered((p: Prop) => !IsIndex(p.key), props)
  }

  // ---- what sorting keeps and achieves -----------------------------------------------------------

  ghost predicate TotalOrder(less: Order) {
    && (forall a :: !less(a, a))
    && (forall a, b {:trigger less(a, b)} :: a != b ==> less(a, b) || less(b, a))
    && (forall a, b, c {:trigger less(a, b), less(b, c)} :: less(a, b) && less(b, c) ==> less(a, c))
  }

  lemma OrdersAreTotal()
    ensures TotalOrder(CodeUnitLess) && TotalOrder(Before)
  {
    forall a, b, c
      ensures !CodeUnitLess(a, a) && (a != b ==> CodeUnitLess(a, b) || CodeUnitLess(b, a))
      ensures CodeUnitLess(a, b) && CodeUnitLess(b, c) ==> CodeUnitLess(a, c)
    {
      CodeUnitOrder(a, b, c);
    }
    forall a, b, c
      ensures !Before(a, a) && (a != b ==> Before(a, b) || Before(b, a))
      ensures Before(a, b) && Before(b, c) ==> Before(a, c)
    {
      BeforeIsTotalOrder(a, b, c);
    }
  }

  lemma {:induction false} InsertedElements(less: Order, p: Prop, props: seq<Prop>)
    ensures forall q :: q in Inserted(less, p, props) <==> q == p || q in props
    decreases |props|
  {
    if props != [] {
      InsertedElements(less, p, props[1..]);
      assert props == [props[0]] + props[1..];
    }
  }

  lemma {:induction false} InsertedIsSorted(less: Order, p: Prop, props: seq<Prop>)
    requires TotalOrder(less) && SortedBy(less, props) && forall q :: q in props ==> q.key != p.key
    ensures SortedBy(less, Inserted(less, p, props))
    decreases |props|
  {
    if props != [] {
      assert props[0] in props;
      if less(props[0].key, p.key) {
        forall q | q in props[1..] ensures q.key != p.key && less(props[0].key, q.key) {
          assert q in props;
        }
        InsertedIsSorted(less, p, props[1..]);
        InsertedElements(less, p, props[1..]);
      }
    }
  }

  lemma {:induction false} SortedElements(less: Order, props: seq<Prop>)
    ensures forall q :: q in Sorted(less, props) <==> q in props
    decreases |props|
  {
    if props != [] {
      SortedElements(less, props[1..]);
      InsertedElements(less, props[0], Sorted(less, props[1..]));
      assert props == [props[0]] + props[1..];
    }
  }

  lemma {:induction false} SortedIsSorted(less: Order, props: seq<Prop>)
    requires TotalOrder(less) && Distinct(props)
    ensures SortedBy(less, Sorted(less, props))
    decreases |props|
  {
    if props != [] {
      SortedIsSorted(less, props[1..]);
      SortedElements(less, props[1..]);
      InsertedIsSorted(less, props[0], Sorted(less, props[1..]));
    }
  }

  lemma {:induction false} FilteredElements(keep: Prop -> bool, props: seq<Prop>)
    ensures forall q :: q in Filtered(keep, props) <==> q in props && keep(q)
    decreases |props|
  {
    if props != [] {
      FilteredElements(keep, props[1..]);
      assert props == [props[0]] + props[1..];
    }
  }

  lemma {:induction false} FilteredIsSorted(keep: Prop -> bool, less: Order, props: seq<Prop>)
    requires SortedBy(less, props)
    ensures SortedBy(less, Filtered(keep, props))
    decreases |props|
  {
    if props != [] {
      FilteredIsSorted(keep, less, props[1..]);
      FilteredElements(keep, props[1..]);
      forall q | q in Filtered(keep, props[1..]) ensures less(props[0].key, q.key) {
        var k :| 0 <= k < |props[1..]| && props[1..][k] == q;
        assert props[k + 1] == q;
      }
    }
  }

  lemma SortedIsDistinct(less: Order, props: seq<Prop>)
    requires TotalOrder(less) && SortedBy(less, props)
    ensures Distinct(props)
  {
  }

  lemma OwnOrderElements(props: seq<Prop>)
    ensures forall q :: q in OwnOrder(props) <==> q in props
  {
    var index, other := (p: Prop) => IsIndex(p.key), (p: Prop) => !IsIndex(p.key);
    FilteredElements(index, props);
    FilteredElements(other, props);
    SortedElements(Before, Filtered(index, props));
  }

  /** Keys created sorted by code unit are met sorted by `Before`. */
  lemma OwnOrderIsSorted(props: seq<Prop>)
    requires SortedBy(CodeUnitLess, props)
    ensures SortedBy(Before, OwnOrder(props))
  {
    OrdersAreTotal();
    var index, other := (p: Prop) => IsIndex(p.key), (p: Prop) => !IsIndex(p.key);
    var a, b := Filtered(index, props), Filtered(other, props);
    FilteredIsSorted(index, CodeUnitLess, props);
    FilteredIsSorted(other, CodeUnitLess, props);
    SortedIsDistinct(CodeUnitLess, a);
    SortedIsSorted(Before, a);
    SortedElements(Before, a);
    FilteredElements(index, props);
    FilteredElements(other, props);
    var s := Sorted(Before, a);
    var all: seq<Prop> := s + b;
    forall j, k | 0 <= j < k < |all| ensures Before(all[j].key, all[k].key) {
      if j < |s| { assert all[j] in a; }
      if j >= |s| { assert all[j] in b && CodeUnitLess(b[j - |s|].key, b[k - |s|].key); }
      if k >= |s| { assert all[k] in b; }
    }
  }

  lemma TailElement(less: Order, props: seq<Prop>, p: Prop)
    requires TotalOrder(less) && SortedBy(less, props) && props != []
    ensures p in props[1..] <==> p in props && p != props[0]
  {
    assert props == [props[0]] + props[1..];
    if p in props[1..] {
      var k :| 0 <= k < |props[1..]| && props[1..][k] == p;
      assert props[k + 1] == p && less(props[0].key, props[k + 1].key);
    }
  }

  /** A sorted list is determined by its elements. */
  lemma {:induction false} SortedIsUnique(less: Order, a: seq<Prop>, b: seq<Prop>)
    requires TotalOrder(less) && SortedBy(less, a) && SortedBy(less, b) && forall p :: p in a <==> p in b
    ensures a == b
    decreases |a|
  {
    assert b != [] ==> b[0] in a;
    if a != [] {
      assert a[0] in b;
      assert a[0] == b[0];
      forall p ensures p in a[1..] <==> p in b[1..] {
        TailElement(less, a, p);
        TailElement(less, b, p);
      }
      SortedIsUnique(less, a[1..], b[1..]);
    }
  }
}
