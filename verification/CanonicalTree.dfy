/**
 The canonical tree, told without the steps that make it: it is the one printable tree of the same meaning
 whose keys are in order, array indices by number and then the others by code unit.
 */
module CanonicalTrees {
  import opened Options
  import opened JsonText
  import opened JsonReader
  import opened PropertyOrder
  import opened Canonical

  /** In every object of the tree the keys are in order, and none is `__proto__`. */
  predicate KeysInOrder(v: Js)
    decreases v
  {
    match v
    case Arr(items) => forall k :: 0 <= k < |items| ==> KeysInOrder(items[k])
    case Obj(props) =>
      && (forall j, k :: 0 <= j < k < |props| ==> KeyBefore(props[j].key, props[k].key))
      && (forall p :: p in props ==> p.key != PROTO && KeysInOrder(p.value))
    case _ => true
  }

  lemma CanonPropsInOrder(props: seq<Prop>)
    requires Distinct(props) && forall q :: q in props ==> KeysInOrder(Canon(q.value))
    ensures KeysInOrder(Obj(CanonProps(props)))
  {
    var c := CanonProps(props);
    CanonPropsSorted(props);
    CanonPropsElements(props);
    forall j, k | 0 <= j < k < |c| ensures KeyBefore(c[j].key, c[k].key) { BeforeExactly(c[j].key, c[k].key); }
    forall p | p in c ensures p.key != PROTO && KeysInOrder(p.value) { var q :| q in props && CanonProp(p, q); }
  }

  /** Whatever the order the keys were created in, the canonical tree has them in order at every depth. */
  lemma {:induction false} CanonKeysInOrder(v: Js)
    requires WellFormed(v)
    ensures KeysInOrder(Canon(v))
    decreases v
  {
    match v
    case Arr(items) =>
      CanonOfArray(items);
      CanonItemsAt(items);
      forall k | 0 <= k < |items| ensures KeysInOrder(Canon(items[k])) {
        WellFormedAt(items, k);
        CanonKeysInOrder(items[k]);
      }
    case Obj(props) =>
      WellFormedElements(props);
      forall q | q in props ensures KeysInOrder(Canon(q.value)) { CanonKeysInOrder(q.value); }
      CanonPropsInOrder(props);
    case _ =>
  }

  lemma {:induction false} PrintableAt(items: seq<Js>, k: nat)
    requires PrintableItems(items) && k < |items|
    ensures Printable(items[k])
    decreases |items|
  {
    if k > 0 { PrintableAt(items[1..], k - 1); }
  }

  lemma OrderedIsSorted(props: seq<Prop>)
    requires KeysInOrder(Obj(props))
    ensures SortedBy(Before, props) && Distinct(props)
  {
    forall j, k | 0 <= j < k < |props| ensures Before(props[j].key, props[k].key) {
      BeforeExactly(props[j].key, props[k].key);
    }
    OrdersAreTotal();
    SortedIsDistinct(Before, props);
  }

  lemma OrderedPropsAreFixed(props: seq<Prop>)
    requires KeysInOrder(Obj(props)) && PrintableProps(props)
    requires forall q :: q in props ==> Canon(q.value) == q.value
    ensures CanonProps(props) == props
  {
    OrderedIsSorted(props);
    PrintableElements(props);
    CanonPropsElements(props);
    CanonPropsSorted(props);
    forall p ensures p in CanonProps(props) <==> p in props {
      if p in props { assert CanonProp(p, p); }
      if p in CanonProps(props) { var q :| q in props && CanonProp(p, q); }
    }
    OrdersAreTotal();
    SortedIsUnique(Before, CanonProps(props), props);
  }

  /** A printable tree with its keys in order is its own canonical tree. */
  lemma {:induction false} OrderedIsFixed(c: Js)
    requires Printable(c) && KeysInOrder(c)
    ensures Canon(c) == c
    decreases c
  {
    match c
    case Arr(items) =>
      CanonOfArray(items);
      CanonItemsAt(items);
      forall k | 0 <= k < |items| ensures Canon(items[k]) == items[k] {
        PrintableAt(items, k);
        OrderedIsFixed(items[k]);
      }
      assert ViewItems(NormalizedItems(items)) == items;
    case Obj(props) =>
      PrintableElements(props);
      forall q | q in props ensures Canon(q.value) == q.value { OrderedIsFixed(q.value); }
      OrderedPropsAreFixed(props);
    case _ =>
  }

  lemma {:induction false} AllWellFormed(items: seq<Js>)
    requires forall k :: 0 <= k < |items| ==> WellFormed(items[k])
    ensures WellFormedItems(items)
    decreases |items|
  {
    if items != [] { AllWellFormed(items[1..]); }
  }

  lemma {:induction false} OrderedIsWellFormed(c: Js)
    requires Printable(c) && KeysInOrder(c)
    ensures WellFormed(c)
    decreases c
  {
    match c
    case Arr(items) =>
      forall k | 0 <= k < |items| ensures WellFormed(items[k]) {
        PrintableAt(items, k);
        OrderedIsWellFormed(items[k]);
      }
      AllWellFormed(items);
    case Obj(props) =>
      PrintableElements(props);
      forall q | q in props ensures WellFormed(q.value) { OrderedIsWellFormed(q.value); }
      WellFormedElements(props);
      OrderedIsSorted(props);
    case _ =>
  }

  /**
   The canonical tree exactly: a tree is what canonicalize prints for a value if and only if it can be
   printed, means what the value means, and has its keys in order.
   */
  lemma CanonExactly(v: Js, c: Js)
    requires WellFormed(v)
    ensures c == Canon(v) <==> Printable(c) && KeysInOrder(c) && Meaning(c) == Meaning(v)
  {
    if c == Canon(v) {
      CanonIsPrintable(v);
      CanonKeysInOrder(v);
      CanonKeepsMeaning(v);
    }
    if Printable(c) && KeysInOrder(c) && Meaning(c) == Meaning(v) {
      OrderedIsWellFormed(c);
      OrderedIsFixed(c);
      SameMeaningSameCanon(v, c);
    }
  }

  /**
   The canonical text exactly: read as JSON it is one tree and nothing more, with its keys in order, and it
   means what the value means.
   */
  lemma CanonicalTextReads(v: Js)
    requires WellFormed(v)
    ensures var r := ReadValue(Canonicalized(v));
      r.Some? && r.value.rest == [] && KeysInOrder(r.value.value) && Meaning(r.value.value) == Meaning(v)
  {
    CanonExactly(v, Canon(v));
    RoundTrip(Canon(v));
  }
}
