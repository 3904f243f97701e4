/**
 canonicalize on trees: `normalize` drops what is undefined and sorts the keys, JSON.stringify prints what
 is left. Two values get the same text exactly when they mean the same JSON value, where meaning forgets
 the order of keys, the undefined, and the difference between null and what JSON cannot say.
 */
module Canonical {
  import opened JsonText
  import opened JsonUnambiguous
  import opened PropertyOrder

  /** `__proto__`: assigning to it on a fresh object sets the prototype and creates no property. */
  const PROTO: JsString := [0x5f, 0x5f, 0x70, 0x72, 0x6f, 0x74, 0x6f, 0x5f, 0x5f]

  predicate Kept(p: Prop) {
    p.value != Undefined && p.key != PROTO
  }

  /** What JavaScript guarantees of every value: distinct keys, number texts that are numerals. */
  predicate WellFormed(v: Js)
    decreases v, 1
  {
    match v
    case Num(n) => n.Finite? ==> IsNumeral(n.text)
    case Arr(items) => WellFormedItems(items)
    case Obj(props) => Distinct(props) && WellFormedProps(props)
    case _ => true
  }

  predicate WellFormedItems(items: seq<Js>)
    decreases items, 0
  {
    items == [] || (WellFormed(items[0]) && WellFormedItems(items[1..]))
  }

  predicate WellFormedProps(props: seq<Prop>)
    decreases props, 0
  {
    props == [] || (WellFormed(props[0].value) && WellFormedProps(props[1..]))
  }

  // ---- normalize ---------------------------------------------------------------------------------

  /** normalize, on a value without cycles. */
  function Normalized(v: Js): Js
    decreases v, 1
  {
    match v
    case Arr(items) => Arr(NormalizedItems(items))
    case Obj(props) => Obj(Sorted(CodeUnitLess, NormalizedProps(props)))
    case _ => v
  }

  function NormalizedItems(items: seq<Js>): (r: seq<Js>)
    ensures |r| == |items| && forall k :: 0 <= k < |r| ==> r[k] == Normalized(items[k])
    decreases items, 0
  {
    if items == [] then [] else [Normalized(items[0])] + NormalizedItems(items[1..])
  }

  /** The properties that are kept, with their values normalized, in the order given. */
  function NormalizedProps(props: seq<Prop>): seq<Prop>
    decreases props, 0
  {
    if props == [] then []
    else
      (if Kept(props[0]) then [Prop(props[0].key, Normalized(props[0].value))] else []) + NormalizedProps(props[1..])
  }

  // ---- JSON.stringify ----------------------------------------------------------------------------

  /** The tree JSON.stringify prints: undefined items are null, undefined properties absent, keys in own order. */
  function JsonView(v: Js): Js
    decreases v, 1
  {
    match v
    case Num(n) =>
      (match n
       case NaN => Null
       case Infinity(_) => Null
       case NegativeZero => Num(Finite(ZERO_TEXT))
       case Finite(_) => v)
    case Arr(items) => Arr(ViewItems(items))
    case Obj(props) => Obj(OwnOrder(ViewProps(props)))
    case _ => v
  }

  function ViewItems(items: seq<Js>): (r: seq<Js>)
    ensures |r| == |items|
    ensures forall k :: 0 <= k < |r| ==> r[k] == if items[k] == Undefined then Null else JsonView(items[k])
    decreases items, 0
  {
    if items == [] then []
    else [if items[0] == Undefined then Null else JsonView(items[0])] + ViewItems(items[1..])
  }

  function ViewProps(props: seq<Prop>): seq<Prop>
    decreases props, 0
  {
    if props == [] then []
    else
      (if props[0].value == Undefined then [] else [Prop(props[0].key, JsonView(props[0].value))]) +
      ViewProps(props[1..])
  }

  // ---- elements ----------------------------------------------------------------------------------

  lemma {:induction false} NormalizedPropsElements(props: seq<Prop>)
    ensures forall p :: p in NormalizedProps(props) <==>
      exists q :: q in props && Kept(q) && p == Prop(q.key, Normalized(q.value))
    decreases |props|
  {
    if props != [] {
      NormalizedPropsElements(props[1..]);
      assert props == [props[0]] + props[1..];
      var all, tail := NormalizedProps(props), NormalizedProps(props[1..]);
      forall p ensures p in all <==> exists q :: q in props && Kept(q) && p == Prop(q.key, Normalized(q.value)) {
        assert p in all <==> p in tail || (Kept(props[0]) && p == Prop(props[0].key, Normalized(props[0].value)));
      }
    }
  }

  lemma {:induction false} ViewPropsElements(props: seq<Prop>)
    ensures forall p :: p in ViewProps(props) <==>
      exists q :: q in props && q.value != Undefined && p == Prop(q.key, JsonView(q.value))
    decreases |props|
  {
    if props != [] {
      ViewPropsElements(props[1..]);
      assert props == [props[0]] + props[1..];
      var all, tail := ViewProps(props), ViewProps(props[1..]);
      forall p
        ensures p in all <==> exists q :: q in props && q.value != Undefined && p == Prop(q.key, JsonView(q.value))
      {
        assert p in all <==>
          p in tail || (props[0].value != Undefined && p == Prop(props[0].key, JsonView(props[0].value)));
      }
    }
  }

  // ---- the canonical tree ------------------------------------------------------------------------

  /** The tree whose text canonicalize returns: `?? 'null'` covers the undefined value itself. */
  function Canon(v: Js): Js {
    if v == Undefined then Null else JsonView(Normalized(v))
  }

  function CanonProps(props: seq<Prop>): seq<Prop> {
    OwnOrder(ViewProps(Sorted(CodeUnitLess, NormalizedProps(props))))
  }

  /** One property as it ends up in the canonical tree. */
  predicate CanonProp(p: Prop, q: Prop) {
    Kept(q) && p == Prop(q.key, Canon(q.value))
  }

  lemma NormalizedIsDefined(v: Js)
    ensures Normalized(v) == Undefined <==> v == Undefined
  {
  }

  lemma CanonPropsElements(props: seq<Prop>)
    ensures forall p :: p in CanonProps(props) <==> exists q :: q in props && CanonProp(p, q)
  {
    var a := NormalizedProps(props);
    var b := Sorted(CodeUnitLess, a);
    NormalizedPropsElements(props);
    SortedElements(CodeUnitLess, a);
    ViewPropsElements(b);
    OwnOrderElements(ViewProps(b));
    forall p ensures p in CanonProps(props) <==> exists q :: q in props && CanonProp(p, q) {
      if p in CanonProps(props) {
        var r :| r in b && r.value != Undefined && p == Prop(r.key, JsonView(r.value));
        assert r in a;
        var q :| q in props && Kept(q) && r == Prop(q.key, Normalized(q.value));
        assert CanonProp(p, q);
      }
      if exists q :: q in props && CanonProp(p, q) {
        var q :| q in props && CanonProp(p, q);
        var r := Prop(q.key, Normalized(q.value));
        NormalizedIsDefined(q.value);
        assert r in a && r in b;
        assert p == Prop(r.key, JsonView(r.value));
        assert p in ViewProps(b);
      }
    }
  }

  lemma {:induction false} NormalizedPropsDistinct(props: seq<Prop>)
    requires Distinct(props)
    ensures Distinct(NormalizedProps(props))
    decreases |props|
  {
    if props != [] {
      NormalizedPropsDistinct(props[1..]);
      NormalizedPropsElements(props[1..]);
      forall p | p in NormalizedProps(props[1..]) ensures p.key != props[0].key {
        var q :| q in props[1..] && Kept(q) && p == Prop(q.key, Normalized(q.value));
        var k :| 0 <= k < |props[1..]| && props[1..][k] == q;
        assert props[k + 1] == q;
      }
    }
  }

  lemma {:induction false} ViewPropsSorted(less: Order, props: seq<Prop>)
    requires SortedBy(less, props)
    ensures SortedBy(less, ViewProps(props))
    decreases |props|
  {
    if props != [] {
      ViewPropsSorted(less, props[1..]);
      ViewPropsElements(props[1..]);
      forall p | p in ViewProps(props[1..]) ensures less(props[0].key, p.key) {
        var q :| q in props[1..] && q.value != Undefined && p == Prop(q.key, JsonView(q.value));
        var k :| 0 <= k < |props[1..]| && props[1..][k] == q;
        assert props[k + 1] == q;
      }
    }
  }

  lemma CanonPropsSorted(props: seq<Prop>)
    requires Distinct(props)
    ensures SortedBy(Before, CanonProps(props))
  {
    OrdersAreTotal();
    NormalizedPropsDistinct(props);
    SortedIsSorted(CodeUnitLess, NormalizedProps(props));
    ViewPropsSorted(CodeUnitLess, Sorted(CodeUnitLess, NormalizedProps(props)));
    OwnOrderIsSorted(ViewProps(Sorted(CodeUnitLess, NormalizedProps(props))));
  }

  lemma {:induction false} WellFormedElements(props: seq<Prop>)
    ensures WellFormedProps(props) <==> forall p :: p in props ==> WellFormed(p.value)
    decreases |props|
  {
    if props != [] {
      WellFormedElements(props[1..]);
      assert props == [props[0]] + props[1..];
    }
  }

  lemma {:induction false} PrintableElements(props: seq<Prop>)
    ensures PrintableProps(props) <==> forall p :: p in props ==> Printable(p.value)
    decreases |props|
  {
    if props != [] {
      PrintableElements(props[1..]);
      assert props == [props[0]] + props[1..];
    }
  }

  /** The canonical tree has a JSON text. */
  lemma {:induction false} CanonIsPrintable(v: Js)
    requires WellFormed(v)
    ensures Printable(Canon(v))
    decreases v, 1
  {
    match v
    case Arr(items) => CanonItemsPrintable(items);
    case Obj(props) =>
      CanonPropsElements(props);
      WellFormedElements(props);
      forall p | p in CanonProps(props) ensures Printable(p.value) {
        var q :| q in props && CanonProp(p, q);
        CanonIsPrintable(q.value);
      }
      PrintableElements(CanonProps(props));
    case _ =>
  }

  lemma {:induction false} CanonItemsPrintable(items: seq<Js>)
    requires WellFormedItems(items)
    ensures PrintableItems(ViewItems(NormalizedItems(items)))
    decreases items, 0
  {
    if items != [] {
      CanonIsPrintable(items[0]);
      NormalizedIsDefined(items[0]);
      CanonItemsPrintable(items[1..]);
      var n := NormalizedItems(items);
      assert n[1..] == NormalizedItems(items[1..]);
      assert ViewItems(n) == [Canon(items[0])] + ViewItems(n[1..]);
    }
  }

  function Canonicalized(v: Js): JsString
    requires WellFormed(v)
  {
    CanonIsPrintable(v);
    Text(Canon(v))
  }

  // ---- meaning -----------------------------------------------------------------------------------

  /** A JSON value without any order of keys: the independent notion of sameness. */
  datatype Json =
    | JNull
    | JBool(b: bool)
    | JNumber(text: JsString)
    | JString(s: JsString)
    | JArray(items: seq<Json>)
    | JObject(fields: map<JsString, Json>)

  function Meaning(v: Js): Json
    decreases v, 1
  {
    match v
    case Undefined => JNull
    case Null => JNull
    case Bool(b) => JBool(b)
    case Num(n) =>
      (match n
       case NaN => JNull
       case Infinity(_) => JNull
       case NegativeZero => JNumber(ZERO_TEXT)
       case Finite(text) => JNumber(text))
    case Str(s) => JString(s)
    case Arr(items) => JArray(MeaningItems(items))
    case Obj(props) => JObject(MeaningProps(props))
  }

  function MeaningItems(items: seq<Js>): (r: seq<Json>)
    ensures |r| == |items| && forall k :: 0 <= k < |r| ==> r[k] == Meaning(items[k])
    decreases items, 0
  {
    if items == [] then [] else [Meaning(items[0])] + MeaningItems(items[1..])
  }

  function MeaningProps(props: seq<Prop>): map<JsString, Json>
    decreases props, 0
  {
    if props == [] then map[]
    else if Kept(props[0]) then MeaningProps(props[1..])[props[0].key := Meaning(props[0].value)]
    else MeaningProps(props[1..])
  }

  lemma {:induction false} MeaningPropsElements(props: seq<Prop>)
    requires Distinct(props)
    ensures forall q :: q in props && Kept(q) ==>
      q.key in MeaningProps(props) && MeaningProps(props)[q.key] == Meaning(q.value)
    ensures forall key :: key in MeaningProps(props) ==> exists q :: q in props && Kept(q) && q.key == key
    decreases |props|
  {
    if props != [] {
      var tail := props[1..];
      MeaningPropsElements(tail);
      assert props == [props[0]] + tail;
      forall q | q in tail ensures q.key != props[0].key {
        var k :| 0 <= k < |tail| && tail[k] == q;
        assert props[k + 1] == q;
      }
      forall key | key in MeaningProps(props) ensures exists q :: q in props && Kept(q) && q.key == key {
        if Kept(props[0]) && key == props[0].key {
          assert props[0] in props;
        } else {
          assert key in MeaningProps(tail);
          var q :| q in tail && Kept(q) && q.key == key;
          assert q in props;
        }
      }
    }
  }

  /** Meaning forgets the order of the keys and every property that is not kept. */
  lemma MeaningIgnoresOrderAndDropped(a: seq<Prop>, b: seq<Prop>)
    requires Distinct(a) && Distinct(b) && forall p :: Kept(p) ==> (p in a <==> p in b)
    ensures Meaning(Obj(a)) == Meaning(Obj(b))
  {
    MeaningPropsElements(a);
    MeaningPropsElements(b);
    assert MeaningProps(a).Keys == MeaningProps(b).Keys;
  }

  // ---- the same meaning has the same canonical tree ----------------------------------------------

  lemma CanonOfArray(items: seq<Js>)
    ensures Canon(Arr(items)) == Arr(ViewItems(NormalizedItems(items)))
  {
  }

  lemma CanonItemAt(items: seq<Js>, k: nat)
    requires k < |items|
    ensures ViewItems(NormalizedItems(items))[k] == Canon(items[k])
  {
    assert NormalizedItems(items)[k] == Normalized(items[k]);
    NormalizedIsDefined(items[k]);
  }

  lemma CanonItemsAt(items: seq<Js>)
    ensures forall k :: 0 <= k < |items| ==> ViewItems(NormalizedItems(items))[k] == Canon(items[k])
  {
    forall k | 0 <= k < |items| ensures ViewItems(NormalizedItems(items))[k] == Canon(items[k]) {
      CanonItemAt(items, k);
    }
  }

  lemma SameItemsSameCanon(a: seq<Js>, b: seq<Js>)
    requires |a| == |b| && forall k :: 0 <= k < |a| ==> Canon(a[k]) == Canon(b[k])
    ensures Canon(Arr(a)) == Canon(Arr(b))
  {
    CanonOfArray(a);
    CanonOfArray(b);
    CanonItemsAt(a);
    CanonItemsAt(b);
    assert ViewItems(NormalizedItems(a)) == ViewItems(NormalizedItems(b));
  }

  lemma {:induction false} WellFormedAt(items: seq<Js>, k: nat)
    requires WellFormedItems(items) && k < |items|
    ensures WellFormed(items[k])
    decreases |items|
  {
    if k > 0 { WellFormedAt(items[1..], k - 1); }
  }

  lemma PropCarriesOver(a: seq<Prop>, b: seq<Prop>, p: Prop)
    requires Distinct(a) && Distinct(b) && MeaningProps(a).Keys == MeaningProps(b).Keys
    requires forall p, q :: p in a && q in b && Kept(p) && Kept(q) && p.key == q.key ==>
      Canon(p.value) == Canon(q.value)
    requires p in CanonProps(a)
    ensures p in CanonProps(b)
  {
    CanonPropsElements(a);
    CanonPropsElements(b);
    MeaningPropsElements(a);
    MeaningPropsElements(b);
    var q :| q in a && CanonProp(p, q);
    assert q.key in MeaningProps(a).Keys;
    var r :| r in b && Kept(r) && r.key == q.key;
    assert CanonProp(p, r);
  }

  lemma SameFieldsSameProps(a: seq<Prop>, b: seq<Prop>)
    requires Distinct(a) && Distinct(b) && MeaningProps(a).Keys == MeaningProps(b).Keys
    requires forall p, q :: p in a && q in b && Kept(p) && Kept(q) && p.key == q.key ==>
      Canon(p.value) == Canon(q.value)
    ensures CanonProps(a) == CanonProps(b)
  {
    CanonPropsSorted(a);
    CanonPropsSorted(b);
    forall p ensures p in CanonProps(a) <==> p in CanonProps(b) {
      if p in CanonProps(a) { PropCarriesOver(a, b, p); }
      if p in CanonProps(b) { PropCarriesOver(b, a, p); }
    }
    OrdersAreTotal();
    SortedIsUnique(Before, CanonProps(a), CanonProps(b));
  }

  lemma {:induction false} SameMeaningSameCanon(v: Js, w: Js)
    requires WellFormed(v) && WellFormed(w) && Meaning(v) == Meaning(w)
    ensures Canon(v) == Canon(w)
    decreases v
  {
    match v
    case Arr(items) =>
      forall k | 0 <= k < |items| ensures Canon(items[k]) == Canon(w.items[k]) {
        assert MeaningItems(items)[k] == MeaningItems(w.items)[k];
        WellFormedAt(items, k);
        WellFormedAt(w.items, k);
        SameMeaningSameCanon(items[k], w.items[k]);
      }
      SameItemsSameCanon(items, w.items);
    case Obj(props) =>
      forall p, q | p in props && q in w.props && Kept(p) && Kept(q) && p.key == q.key
        ensures Canon(p.value) == Canon(q.value)
      {
        MeaningPropsElements(props);
        MeaningPropsElements(w.props);
        WellFormedElements(props);
        WellFormedElements(w.props);
        SameMeaningSameCanon(p.value, q.value);
      }
      SameFieldsSameProps(props, w.props);
    case _ =>
  }

  // ---- the canonical tree keeps the meaning ------------------------------------------------------

  lemma SameKeptFields(m: map<JsString, Json>, n: map<JsString, Json>, c: seq<Prop>)
    requires n.Keys <= m.Keys
    requires forall key :: key in m ==> exists p :: p in c && Kept(p) && p.key == key
    requires forall p :: p in c && Kept(p) ==> p.key in n && n[p.key] == Meaning(p.value)
    requires forall p :: p in c && Kept(p) ==> p.key in m && m[p.key] == Meaning(p.value)
    ensures m == n
  {
  }

  lemma CanonIsDefined(v: Js)
    ensures Canon(v) != Undefined
  {
    NormalizedIsDefined(v);
  }

  lemma CanonPropsKeepMeaning(props: seq<Prop>)
    requires Distinct(props) && forall q :: q in props ==> Meaning(Canon(q.value)) == Meaning(q.value)
    ensures MeaningProps(CanonProps(props)) == MeaningProps(props)
  {
    var c := CanonProps(props);
    CanonPropsElements(props);
    CanonPropsSorted(props);
    OrdersAreTotal();
    SortedIsDistinct(Before, c);
    MeaningPropsElements(props);
    MeaningPropsElements(c);
    forall p | p in c
      ensures Kept(p) && p.key in MeaningProps(props) && MeaningProps(props)[p.key] == Meaning(p.value)
    {
      var q :| q in props && CanonProp(p, q);
      CanonIsDefined(q.value);
    }
    forall key | key in MeaningProps(props) ensures key in MeaningProps(c) {
      var q :| q in props && Kept(q) && q.key == key;
      assert CanonProp(Prop(q.key, Canon(q.value)), q);
    }
    SameKeptFields(MeaningProps(c), MeaningProps(props), c);
  }

  lemma {:induction false} CanonKeepsMeaning(v: Js)
    requires WellFormed(v)
    ensures Meaning(Canon(v)) == Meaning(v)
    decreases v
  {
    match v
    case Arr(items) =>
      CanonOfArray(items);
      CanonItemsAt(items);
      forall k | 0 <= k < |items| ensures Meaning(Canon(items[k])) == Meaning(items[k]) {
        WellFormedAt(items, k);
        CanonKeepsMeaning(items[k]);
      }
      assert MeaningItems(Canon(v).items) == MeaningItems(items);
    case Obj(props) =>
      forall q | q in props ensures Meaning(Canon(q.value)) == Meaning(q.value) {
        WellFormedElements(props);
        CanonKeepsMeaning(q.value);
      }
      CanonPropsKeepMeaning(props);
    case _ =>
  }

  /**
   Canonicalization is exact: two values have the same canonical text if and only if they mean the same
   JSON value.
   */
  lemma CanonicalizationIsExact(v: Js, w: Js)
    requires WellFormed(v) && WellFormed(w)
    ensures Canonicalized(v) == Canonicalized(w) <==> Meaning(v) == Meaning(w)
  {
    CanonIsPrintable(v);
    CanonIsPrintable(w);
    if Canonicalized(v) == Canonicalized(w) {
      TextIsInjective(Canon(v), Canon(w));
      CanonKeepsMeaning(v);
      CanonKeepsMeaning(w);
    }
    if Meaning(v) == Meaning(w) {
      SameMeaningSameCanon(v, w);
    }
  }

  // ---- transport ---------------------------------------------------------------------------------

  /** One property as JSON.stringify prints it. */
  predicate ViewProp(p: Prop, q: Prop) {
    q.value != Undefined && p == Prop(q.key, JsonView(q.value))
  }

  lemma {:induction false} ViewPropsDistinct(props: seq<Prop>)
    requires Distinct(props)
    ensures Distinct(ViewProps(props))
    decreases |props|
  {
    if props != [] {
      ViewPropsDistinct(props[1..]);
      ViewPropsElements(props[1..]);
      forall p | p in ViewProps(props[1..]) ensures p.key != props[0].key {
        var q :| q in props[1..] && q.value != Undefined && p == Prop(q.key, JsonView(q.value));
        var k :| 0 <= k < |props[1..]| && props[1..][k] == q;
        assert props[k + 1] == q;
      }
    }
  }

  lemma {:induction false} FilteredIsDistinct(keep: Prop -> bool, props: seq<Prop>)
    requires Distinct(props)
    ensures Distinct(Filtered(keep, props))
    decreases |props|
  {
    if props != [] {
      FilteredIsDistinct(keep, props[1..]);
      FilteredElements(keep, props[1..]);
      forall q | q in Filtered(keep, props[1..]) ensures q.key != props[0].key {
        var k :| 0 <= k < |props[1..]| && props[1..][k] == q;
        assert props[k + 1] == q;
      }
    }
  }

  lemma OwnOrderIsDistinct(props: seq<Prop>)
    requires Distinct(props)
    ensures Distinct(OwnOrder(props))
  {
    OrdersAreTotal();
    var index, other := (p: Prop) => IsIndex(p.key), (p: Prop) => !IsIndex(p.key);
    FilteredIsDistinct(index, props);
    FilteredIsDistinct(other, props);
    FilteredElements(index, props);
    FilteredElements(other, props);
    SortedIsSorted(Before, Filtered(index, props));
    SortedElements(Before, Filtered(index, props));
    var a, b := Sorted(Before, Filtered(index, props)), Filtered(other, props);
    SortedIsDistinct(Before, a);
    assert OwnOrder(props) == a + b;
    forall j, k | 0 <= j < k < |OwnOrder(props)| ensures OwnOrder(props)[j].key != OwnOrder(props)[k].key {
      if j < |a| <= k { assert a[j] in a && b[k - |a|] in b; }
    }
  }

  lemma ViewObjElements(props: seq<Prop>)
    ensures forall p :: p in OwnOrder(ViewProps(props)) <==> exists q :: q in props && ViewProp(p, q)
  {
    ViewPropsElements(props);
    OwnOrderElements(ViewProps(props));
    forall p ensures p in ViewProps(props) <==> exists q :: q in props && ViewProp(p, q) {
      if exists q :: q in props && ViewProp(p, q) {
        var q :| q in props && ViewProp(p, q);
      }
      if p in ViewProps(props) {
        var q :| q in props && q.value != Undefined && p == Prop(q.key, JsonView(q.value));
        assert ViewProp(p, q);
      }
    }
  }

  lemma {:induction false} ViewIsPrintable(v: Js)
    requires WellFormed(v) && v != Undefined
    ensures Printable(JsonView(v))
    decreases v, 1
  {
    match v
    case Arr(items) => ViewItemsPrintable(items);
    case Obj(props) =>
      ViewObjElements(props);
      WellFormedElements(props);
      forall p | p in OwnOrder(ViewProps(props)) ensures Printable(p.value) {
        var q :| q in props && ViewProp(p, q);
        ViewIsPrintable(q.value);
      }
      PrintableElements(OwnOrder(ViewProps(props)));
    case _ =>
  }

  lemma {:induction false} ViewItemsPrintable(items: seq<Js>)
    requires WellFormedItems(items)
    ensures PrintableItems(ViewItems(items))
    decreases items, 0
  {
    if items != [] {
      if items[0] != Undefined { ViewIsPrintable(items[0]); }
      ViewItemsPrintable(items[1..]);
    }
  }

  /** Every kept property JSON.stringify prints carries the meaning of the property it came from. */
  lemma PrintedFieldMeans(props: seq<Prop>, p: Prop)
    requires Distinct(props) && forall q :: q in props ==> Meaning(JsonView(q.value)) == Meaning(q.value)
    requires p in OwnOrder(ViewProps(props)) && Kept(p)
    ensures p.key in MeaningProps(props) && MeaningProps(props)[p.key] == Meaning(p.value)
  {
    ViewObjElements(props);
    MeaningPropsElements(props);
    var q :| q in props && ViewProp(p, q);
    assert Kept(q);
  }

  lemma ViewIsDefined(v: Js)
    ensures JsonView(v) == Undefined <==> v == Undefined
  {
  }

  lemma FieldIsPrinted(props: seq<Prop>, q: Prop)
    requires q in props && Kept(q)
    ensures Prop(q.key, JsonView(q.value)) in OwnOrder(ViewProps(props)) && Kept(Prop(q.key, JsonView(q.value)))
  {
    ViewObjElements(props);
    ViewIsDefined(q.value);
    assert ViewProp(Prop(q.key, JsonView(q.value)), q);
  }

  lemma PrintedIsDistinct(props: seq<Prop>)
    requires Distinct(props)
    ensures Distinct(OwnOrder(ViewProps(props)))
  {
    ViewPropsDistinct(props);
    OwnOrderIsDistinct(ViewProps(props));
  }

  lemma ViewPropsKeepMeaning(props: seq<Prop>)
    requires Distinct(props) && forall q :: q in props ==> Meaning(JsonView(q.value)) == Meaning(q.value)
    ensures MeaningProps(OwnOrder(ViewProps(props))) == MeaningProps(props)
  {
    var c := OwnOrder(ViewProps(props));
    PrintedIsDistinct(props);
    MeaningPropsElements(c);
    forall p | p in c && Kept(p)
      ensures p.key in MeaningProps(props) && MeaningProps(props)[p.key] == Meaning(p.value)
    {
      PrintedFieldMeans(props, p);
    }
    forall key | key in MeaningProps(props) ensures key in MeaningProps(c) {
      MeaningPropsElements(props);
      var q :| q in props && Kept(q) && q.key == key;
      FieldIsPrinted(props, q);
    }
    SameKeptFields(MeaningProps(c), MeaningProps(props), c);
  }

  lemma {:induction false} ViewKeepsMeaning(v: Js)
    requires WellFormed(v)
    ensures Meaning(JsonView(v)) == Meaning(v)
    decreases v
  {
    match v
    case Arr(items) =>
      forall k | 0 <= k < |items| ensures Meaning(ViewItems(items)[k]) == Meaning(items[k]) {
        WellFormedAt(items, k);
        ViewKeepsMeaning(items[k]);
      }
      assert MeaningItems(ViewItems(items)) == MeaningItems(items);
    case Obj(props) =>
      forall q | q in props ensures Meaning(JsonView(q.value)) == Meaning(q.value) {
        WellFormedElements(props);
        ViewKeepsMeaning(q.value);
      }
      ViewPropsKeepMeaning(props);
    case _ =>
  }

  /**
   What arrives when JSON.stringify's text is parsed again: any value that prints to the same text means
   the same.
   */
  lemma TransportKeepsMeaning(sent: Js, received: Js)
    requires WellFormed(sent) && WellFormed(received) && sent != Undefined && received != Undefined
    ensures Printable(JsonView(sent)) && Printable(JsonView(received))
    ensures Text(JsonView(sent)) == Text(JsonView(received)) ==> Meaning(sent) == Meaning(received)
  {
    ViewIsPrintable(sent);
    ViewIsPrintable(received);
    if Text(JsonView(sent)) == Text(JsonView(received)) {
      TextIsInjective(JsonView(sent), JsonView(received));
      ViewKeepsMeaning(sent);
      ViewKeepsMeaning(received);
    }
  }
}
