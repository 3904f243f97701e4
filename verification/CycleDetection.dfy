/**
 What the walk of `NormalizeGraph` computes, said without the walk: it throws exactly when some path of
 references reaches an object that is already on it, and otherwise the graph has a tree unfolding and the
 walk returns the normalized form of that tree.
 */
module CycleDetection {
  import opened JsonText
  import opened PropertyOrder
  import opened Canonical
  import opened NormalizeGraph

  // ---- paths and cycles --------------------------------------------------------------------------

  /** `a` refers to `b`: through an element, or through a key (an undefined value refers to nothing). */
  predicate Edge(h: Heap, a: nat, b: nat)
    requires Closed(h) && a in h
  {
    match h[a]
    case ArrayNode(items) => Ref(b) in items
    case ObjectNode(keys, slots) => assert NodeOk(h, h[a]); exists k :: 0 <= k < |keys| && slots[keys[k]] == Ref(b)
  }

  predicate IsPath(h: Heap, p: seq<nat>)
    requires Closed(h)
  {
    && p != []
    && (forall k :: 0 <= k < |p| ==> p[k] in h)
    && forall k :: 0 <= k < |p| - 1 ==> Edge(h, p[k], p[k + 1])
  }

  /** A path from `s` whose last object is in `seen` or earlier on the path. */
  predicate Returns(h: Heap, s: Slot, seen: set<nat>, p: seq<nat>)
    requires Closed(h)
  {
    && IsPath(h, p) && s == Ref(p[0])
    && (p[|p| - 1] in seen || p[|p| - 1] in p[..|p| - 1])
  }

  ghost predicate ReachesCycle(h: Heap, s: Slot)
    requires Closed(h)
  {
    exists p: seq<nat> :: Returns(h, s, {}, p)
  }

  // ---- the tree unfolding ------------------------------------------------------------------------

  /** `t` is what one sees when every reference is followed. */
  predicate Unfolds(h: Heap, s: Slot, t: Js)
    requires Closed(h) && SlotOk(h, s)
    decreases t
  {
    match s
    case Plain(v) => t == v
    case Ref(n) =>
      assert NodeOk(h, h[n]);
      match h[n]
      case ArrayNode(items) =>
        t.Arr? && |t.items| == |items| && forall k :: 0 <= k < |items| ==> Unfolds(h, items[k], t.items[k])
      case ObjectNode(keys, slots) =>
        && t.Obj? && |t.props| == |keys|
        && forall k :: 0 <= k < |keys| ==>
             t.props[k].key == keys[k] && Unfolds(h, slots[keys[k]], t.props[k].value)
  }

  lemma {:induction false} UnfoldingIsUnique(h: Heap, s: Slot, t: Js, u: Js)
    requires Closed(h) && SlotOk(h, s) && Unfolds(h, s, t) && Unfolds(h, s, u)
    ensures t == u
    decreases t
  {
    if s.Ref? {
      assert NodeOk(h, h[s.node]);
      match h[s.node]
      case ArrayNode(items) =>
        forall k | 0 <= k < |items| ensures t.items[k] == u.items[k] {
          UnfoldingIsUnique(h, items[k], t.items[k], u.items[k]);
        }
      case ObjectNode(keys, slots) =>
        forall k | 0 <= k < |keys| ensures t.props[k] == u.props[k] {
          UnfoldingIsUnique(h, slots[keys[k]], t.props[k].value, u.props[k].value);
        }
    }
  }

  // ---- throwing means a cycle --------------------------------------------------------------------

  lemma PathCons(h: Heap, n: nat, q: seq<nat>, seen: set<nat>)
    requires Closed(h) && n in h && IsPath(h, q) && Edge(h, n, q[0]) && Returns(h, Ref(q[0]), seen + {n}, q)
    ensures Returns(h, Ref(n), seen, [n] + q)
  {
    var p := [n] + q;
    forall k | 0 <= k < |p| - 1 ensures Edge(h, p[k], p[k + 1]) {
      if k > 0 { assert p[k] == q[k - 1] && p[k + 1] == q[k]; }
    }
    assert p[|p| - 1] == q[|q| - 1];
    assert p[..|p| - 1] == [n] + q[..|q| - 1];
  }

  lemma {:induction false} ThrownHasPath(h: Heap, s: Slot, seen: set<nat>) returns (p: seq<nat>)
    requires Closed(h) && SlotOk(h, s) && Normalize(h, s, seen).Thrown?
    ensures Returns(h, s, seen, p)
    decreases |h.Keys - seen|, 0
  {
    var n := s.node;
    p := [n];
    if n !in seen {
      SeenGrows(h, n, seen);
      assert NodeOk(h, h[n]);
      var q: seq<nat>;
      match h[n] {
        case ArrayNode(items) => q := ItemsThrownHasPath(h, items, seen + {n});
        case ObjectNode(keys, slots) =>
          q := FieldsThrownHasPath(h, SortedKeys(keys), slots, seen + {n});
          var key :| key in keys && slots[key] == Ref(q[0]);
          var k :| 0 <= k < |keys| && keys[k] == key;
      }
      PathCons(h, n, q, seen);
      p := [n] + q;
    }
  }

  lemma {:induction false} ItemsThrownHasPath(h: Heap, items: seq<Slot>, seen: set<nat>) returns (p: seq<nat>)
    requires Closed(h) && ItemsOk(h, items) && NormalizeItems(h, items, seen).Thrown?
    ensures p != [] && Ref(p[0]) in items && Returns(h, Ref(p[0]), seen, p)
    decreases |h.Keys - seen|, 1 + |items|
  {
    if Normalize(h, items[0], seen).Thrown? {
      p := ThrownHasPath(h, items[0], seen);
    } else {
      p := ItemsThrownHasPath(h, items[1..], seen);
    }
  }

  lemma {:induction false} FieldsThrownHasPath(h: Heap, keys: seq<JsString>, slots: map<JsString, Slot>, seen: set<nat>)
    returns (p: seq<nat>)
    requires Closed(h) && FieldsOk(h, keys, slots) && NormalizeFields(h, keys, slots, seen).Thrown?
    ensures p != [] && (exists key :: key in keys && slots[key] == Ref(p[0])) && Returns(h, Ref(p[0]), seen, p)
    decreases |h.Keys - seen|, 1 + |keys|
  {
    if slots[keys[0]] != Plain(Undefined) && Normalize(h, slots[keys[0]], seen).Thrown? {
      p := ThrownHasPath(h, slots[keys[0]], seen);
      assert keys[0] in keys;
    } else {
      p := FieldsThrownHasPath(h, keys[1..], slots, seen);
      var key :| key in keys[1..] && slots[key] == Ref(p[0]);
      assert key in keys;
    }
  }

  // ---- returning means a tree --------------------------------------------------------------------

  function PropsOf(keys: seq<JsString>, m: map<JsString, Js>): (r: seq<Prop>)
    requires forall k :: 0 <= k < |keys| ==> keys[k] in m
    ensures |r| == |keys| && forall k :: 0 <= k < |keys| ==> r[k] == Prop(keys[k], m[keys[k]])
  {
    if keys == [] then [] else [Prop(keys[0], m[keys[0]])] + PropsOf(keys[1..], m)
  }

  predicate KeysSorted(keys: seq<JsString>) {
    forall j, k :: 0 <= j < k < |keys| ==> CodeUnitLess(keys[j], keys[k])
  }

  lemma SortedKeysAreSorted(keys: seq<JsString>)
    requires DistinctKeys(keys)
    ensures KeysSorted(SortedKeys(keys)) && DistinctKeys(SortedKeys(keys))
  {
    OrdersAreTotal();
    SortedIsSorted(CodeUnitLess, Bare(keys));
  }

  lemma {:induction false} NormalizedPropsSorted(props: seq<Prop>)
    requires SortedBy(CodeUnitLess, props)
    ensures SortedBy(CodeUnitLess, NormalizedProps(props))
    decreases |props|
  {
    if props != [] {
      NormalizedPropsSorted(props[1..]);
      NormalizedPropsElements(props[1..]);
      forall p | p in NormalizedProps(props[1..]) ensures CodeUnitLess(props[0].key, p.key) {
        var q :| q in props[1..] && Kept(q) && p == Prop(q.key, Normalized(q.value));
        var k :| 0 <= k < |props[1..]| && props[1..][k] == q;
        assert props[k + 1] == q;
      }
    }
  }

  lemma InProps(keys: seq<JsString>, m: map<JsString, Js>, key: JsString)
    requires key in keys && forall k :: 0 <= k < |keys| ==> keys[k] in m
    ensures Prop(key, m[key]) in PropsOf(keys, m)
  {
    var k :| 0 <= k < |keys| && keys[k] == key;
    assert PropsOf(keys, m)[k] == Prop(key, m[key]);
  }

  lemma SameProps(keys: seq<JsString>, m: map<JsString, Js>)
    requires forall key :: key in keys ==> key in m
    ensures forall p :: p in PropsOf(keys, m) <==> p in PropsOf(SortedKeys(keys), m)
  {
    var a, b := PropsOf(keys, m), PropsOf(SortedKeys(keys), m);
    forall p ensures p in a <==> p in b {
      if p in a {
        var k :| 0 <= k < |a| && a[k] == p;
        assert keys[k] in SortedKeys(keys);
        InProps(SortedKeys(keys), m, keys[k]);
      }
      if p in b {
        var k :| 0 <= k < |b| && b[k] == p;
        assert SortedKeys(keys)[k] in keys;
        InProps(keys, m, SortedKeys(keys)[k]);
      }
    }
  }

  lemma SameNormalizedProps(a: seq<Prop>, b: seq<Prop>)
    requires forall p :: p in a <==> p in b
    ensures forall p :: p in NormalizedProps(a) <==> p in NormalizedProps(b)
  {
    NormalizedPropsElements(a);
    NormalizedPropsElements(b);
  }

  /** Sorting the keys before the walk and sorting the properties after it come to the same. */
  lemma SortingKeysFirst(keys: seq<JsString>, m: map<JsString, Js>)
    requires DistinctKeys(keys) && forall key :: key in keys ==> key in m
    ensures Sorted(CodeUnitLess, NormalizedProps(PropsOf(keys, m))) == NormalizedProps(PropsOf(SortedKeys(keys), m))
  {
    var a, b := PropsOf(keys, m), PropsOf(SortedKeys(keys), m);
    OrdersAreTotal();
    SortedKeysAreSorted(keys);
    SameProps(keys, m);
    SameNormalizedProps(a, b);
    NormalizedPropsDistinct(a);
    SortedIsSorted(CodeUnitLess, NormalizedProps(a));
    SortedElements(CodeUnitLess, NormalizedProps(a));
    NormalizedPropsSorted(b);
    SortedIsUnique(CodeUnitLess, Sorted(CodeUnitLess, NormalizedProps(a)), NormalizedProps(b));
  }

  /** The values found for the keys make up the object. */
  lemma ObjectUnfolds(h: Heap, n: nat, keys: seq<JsString>, slots: map<JsString, Slot>, m: map<JsString, Js>)
    requires Closed(h) && n in h && h[n] == ObjectNode(keys, slots)
    requires forall k :: 0 <= k < |keys| ==> keys[k] in slots && SlotOk(h, slots[keys[k]])
    requires forall k :: 0 <= k < |keys| ==>
      keys[k] in m && Unfolds(h, slots[keys[k]], m[keys[k]]) && WellFormed(m[keys[k]])
    requires DistinctKeys(keys)
    ensures Unfolds(h, Ref(n), Obj(PropsOf(keys, m))) && WellFormed(Obj(PropsOf(keys, m)))
  {
    WellFormedElements(PropsOf(keys, m));
  }

  lemma {:induction false} DoneHasUnfolding(h: Heap, s: Slot, seen: set<nat>) returns (t: Js)
    requires Closed(h) && SlotOk(h, s) && Normalize(h, s, seen).Done?
    ensures Unfolds(h, s, t) && WellFormed(t) && Normalize(h, s, seen) == Done(Normalized(t))
    decreases |h.Keys - seen|, 0
  {
    if s.Plain? {
      t := s.v;
    } else {
      var n := s.node;
      SeenGrows(h, n, seen);
      assert NodeOk(h, h[n]);
      match h[n] {
        case ArrayNode(items) =>
          var ts := ItemsDone(h, items, seen + {n});
          t := Arr(ts);
        case ObjectNode(keys, slots) =>
          SortedKeysAreSorted(keys);
          var m := FieldsDone(h, SortedKeys(keys), slots, seen + {n});
          assert forall k :: 0 <= k < |keys| ==> keys[k] in SortedKeys(keys);
          ObjectUnfolds(h, n, keys, slots, m);
          t := Obj(PropsOf(keys, m));
          SortingKeysFirst(keys, m);
      }
    }
  }

  lemma {:induction false} ItemsDone(h: Heap, items: seq<Slot>, seen: set<nat>) returns (ts: seq<Js>)
    requires Closed(h) && ItemsOk(h, items) && NormalizeItems(h, items, seen).Done?
    ensures |ts| == |items| && WellFormedItems(ts)
    ensures forall k :: 0 <= k < |items| ==> Unfolds(h, items[k], ts[k])
    ensures NormalizeItems(h, items, seen) == Done(NormalizedItems(ts))
    decreases |h.Keys - seen|, 1 + |items|
  {
    if items == [] {
      ts := [];
    } else {
      var t := DoneHasUnfolding(h, items[0], seen);
      var more := ItemsDone(h, items[1..], seen);
      ts := [t] + more;
      assert ts[1..] == more;
    }
  }

  lemma FieldsJoined(h: Heap, key: JsString, t: Js, tail: seq<JsString>, rest: map<JsString, Js>,
                     slots: map<JsString, Slot>)
    requires Closed(h) && FieldsOk(h, [key] + tail, slots) && FieldsOk(h, tail, slots) && key !in tail
    requires key in slots && SlotOk(h, slots[key]) && Unfolds(h, slots[key], t) && WellFormed(t)
    requires forall k :: k in tail ==>
      k in slots && SlotOk(h, slots[k]) && k in rest && Unfolds(h, slots[k], rest[k]) && WellFormed(rest[k])
    ensures var m := rest[key := t];
      forall k :: k in [key] + tail ==>
        k in slots && SlotOk(h, slots[k]) && k in m && Unfolds(h, slots[k], m[k]) && WellFormed(m[k])
    ensures forall k :: k in tail ==> rest[key := t][k] == rest[k]
  {
  }

  lemma OnePropMore(key: JsString, t: Js, tail: seq<JsString>, m: map<JsString, Js>)
    requires key in m && m[key] == t && forall k :: 0 <= k < |tail| ==> tail[k] in m
    ensures NormalizedProps(PropsOf([key] + tail, m)) ==
      (if t == Undefined then [] else Assigned(key, Normalized(t))) + NormalizedProps(PropsOf(tail, m))
  {
    assert ([key] + tail)[1..] == tail;
    var ps := PropsOf([key] + tail, m);
    assert ps[0] == Prop(key, t) && ps[1..] == PropsOf(tail, m);
    NormalizedIsDefined(t);
  }

  lemma {:induction false} SamePropsOf(keys: seq<JsString>, m: map<JsString, Js>, n: map<JsString, Js>)
    requires forall key :: key in keys ==> key in m && key in n && m[key] == n[key]
    ensures PropsOf(keys, m) == PropsOf(keys, n)
  {
  }

  lemma {:induction false} FieldsDone(h: Heap, keys: seq<JsString>, slots: map<JsString, Slot>, seen: set<nat>)
    returns (m: map<JsString, Js>)
    requires Closed(h) && FieldsOk(h, keys, slots) && DistinctKeys(keys)
    requires NormalizeFields(h, keys, slots, seen).Done?
    ensures forall key :: key in keys ==> key in m && Unfolds(h, slots[key], m[key]) && WellFormed(m[key])
    ensures NormalizeFields(h, keys, slots, seen) == Done(NormalizedProps(PropsOf(keys, m)))
    decreases |h.Keys - seen|, 1 + |keys|
  {
    if keys == [] {
      m := map[];
    } else {
      var key, tail := keys[0], keys[1..];
      assert keys == [key] + tail && key !in tail;
      var rest := FieldsDone(h, tail, slots, seen);
      var t := FieldDone(h, key, slots, seen, tail);
      m := rest[key := t];
      FieldsJoined(h, key, t, tail, rest, slots);
      SamePropsOf(tail, rest, m);
      OnePropMore(key, t, tail, m);
    }
  }

  lemma FieldDone(h: Heap, key: JsString, slots: map<JsString, Slot>, seen: set<nat>, tail: seq<JsString>)
    returns (t: Js)
    requires Closed(h) && FieldsOk(h, [key] + tail, slots) && FieldsOk(h, tail, slots)
    requires key in slots && SlotOk(h, slots[key])
    requires NormalizeFields(h, [key] + tail, slots, seen).Done?
    ensures Unfolds(h, slots[key], t) && WellFormed(t) && NormalizeFields(h, tail, slots, seen).Done?
    ensures NormalizeFields(h, [key] + tail, slots, seen) ==
      Done((if t == Undefined then [] else Assigned(key, Normalized(t))) + NormalizeFields(h, tail, slots, seen).value)
    decreases |h.Keys - seen|, 1 + |tail|
  {
    assert ([key] + tail)[1..] == tail;
    if slots[key] == Plain(Undefined) {
      t := Undefined;
      var rest := NormalizeFields(h, tail, slots, seen);
      assert [] + rest.value == rest.value;
    } else {
      t := DoneHasUnfolding(h, slots[key], seen);
    }
  }

  // ---- a cycle has no tree -----------------------------------------------------------------------

  function Size(t: Js): nat
    decreases t, 1
  {
    match t
    case Arr(items) => 1 + ItemsSize(items)
    case Obj(props) => 1 + PropsSize(props)
    case _ => 0
  }

  function ItemsSize(items: seq<Js>): (r: nat)
    ensures forall k :: 0 <= k < |items| ==> Size(items[k]) <= r
    decreases items, 0
  {
    if items == [] then 0
    else assert items == [items[0]] + items[1..]; Size(items[0]) + ItemsSize(items[1..])
  }

  function PropsSize(props: seq<Prop>): (r: nat)
    ensures forall k :: 0 <= k < |props| ==> Size(props[k].value) <= r
    decreases props, 0
  {
    if props == [] then 0
    else assert props == [props[0]] + props[1..]; Size(props[0].value) + PropsSize(props[1..])
  }

  lemma EdgeGoesDown(h: Heap, a: nat, b: nat, t: Js) returns (u: Js)
    requires Closed(h) && a in h && b in h && Edge(h, a, b) && Unfolds(h, Ref(a), t)
    ensures Unfolds(h, Ref(b), u) && Size(u) < Size(t)
  {
    assert NodeOk(h, h[a]);
    match h[a] {
      case ArrayNode(items) =>
        var k :| 0 <= k < |items| && items[k] == Ref(b);
        u := t.items[k];
      case ObjectNode(keys, slots) =>
        var k :| 0 <= k < |keys| && slots[keys[k]] == Ref(b);
        u := t.props[k].value;
    }
  }

  lemma {:induction false} PathGoesDown(h: Heap, p: seq<nat>, t: Js) returns (u: Js)
    requires Closed(h) && IsPath(h, p) && Unfolds(h, Ref(p[0]), t)
    ensures Unfolds(h, Ref(p[|p| - 1]), u) && (if |p| == 1 then u == t else Size(u) < Size(t))
    decreases |p|
  {
    if |p| == 1 {
      u := t;
    } else {
      var t1 := EdgeGoesDown(h, p[0], p[1], t);
      assert IsPath(h, p[1..]);
      u := PathGoesDown(h, p[1..], t1);
    }
  }

  lemma CycleHasNoUnfolding(h: Heap, s: Slot, p: seq<nat>, t: Js)
    requires Closed(h) && SlotOk(h, s) && Returns(h, s, {}, p)
    ensures !Unfolds(h, s, t)
  {
    var last := |p| - 1;
    var j :| 0 <= j < last && p[j] == p[last];
    var a, b := p[..j + 1], p[j..];
    assert IsPath(h, a) && a[|a| - 1] == p[j];
    assert IsPath(h, b) && b[0] == p[j] && b[|b| - 1] == p[last];
    if Unfolds(h, s, t) {
      var t1 := PathGoesDown(h, a, t);
      var t2 := PathGoesDown(h, b, t1);
      UnfoldingIsUnique(h, Ref(p[j]), t1, t2);
    }
  }

  // ---- the theorem -------------------------------------------------------------------------------

  /**
   normalize throws exactly when a cycle can be reached, and returns exactly when the graph unfolds to a
   tree: then it returns that tree normalized. Sharing without a cycle is no reason to throw.
   */
  lemma NormalizeIsExact(h: Heap, s: Slot)
    requires Closed(h) && SlotOk(h, s)
    ensures Normalize(h, s, {}).Thrown? <==> ReachesCycle(h, s)
    ensures Normalize(h, s, {}).Thrown? <==> !exists t :: Unfolds(h, s, t)
    ensures forall t :: Unfolds(h, s, t) ==> WellFormed(t) && Normalize(h, s, {}) == Done(Normalized(t))
  {
    if Normalize(h, s, {}).Thrown? {
      var p := ThrownHasPath(h, s, {});
      forall t ensures !Unfolds(h, s, t) {
        CycleHasNoUnfolding(h, s, p, t);
      }
    } else {
      var t := DoneHasUnfolding(h, s, {});
      assert exists u :: Unfolds(h, s, u);
      forall p ensures !Returns(h, s, {}, p) {
        if Returns(h, s, {}, p) { CycleHasNoUnfolding(h, s, p, t); }
      }
      forall u | Unfolds(h, s, u) ensures u == t {
        UnfoldingIsUnique(h, s, t, u);
      }
    }
  }

  // ---- canonicalize on the heap ------------------------------------------------------------------

  /** What JSON.stringify, with its `?? 'null'`, prints of a normalized value. */
  function Printed(v: Js): Js {
    if v == Undefined then Null else JsonView(v)
  }

  lemma NormalizedHasText(h: Heap, s: Slot)
    requires Closed(h) && SlotOk(h, s) && Normalize(h, s, {}).Done?
    ensures Printable(Printed(Normalize(h, s, {}).value))
  {
    var t := DoneHasUnfolding(h, s, {});
    NormalizedIsDefined(t);
    CanonIsPrintable(t);
  }

  /** canonicalize of what is on the heap: it throws, or gives a text. */
  function CanonicalizeGraph(h: Heap, s: Slot): Outcome<JsString>
    requires Closed(h) && SlotOk(h, s)
  {
    match Normalize(h, s, {})
    case Thrown => Thrown
    case Done(v) =>
      NormalizedHasText(h, s);
      Done(Text(Printed(v)))
  }

  lemma TextOfUnfolding(h: Heap, s: Slot, t: Js)
    requires Closed(h) && SlotOk(h, s) && Unfolds(h, s, t)
    ensures WellFormed(t) && CanonicalizeGraph(h, s) == Done(Canonicalized(t))
  {
    NormalizeIsExact(h, s);
    NormalizedIsDefined(t);
    CanonIsPrintable(t);
  }

  /** From the heap to the text: canonicalize throws exactly on a reachable cycle, and else prints the unfolding. */
  lemma CanonicalizeGraphThrowsExactly(h: Heap, s: Slot)
    requires Closed(h) && SlotOk(h, s)
    ensures CanonicalizeGraph(h, s).Thrown? <==> ReachesCycle(h, s)
    ensures !ReachesCycle(h, s) ==>
      exists t :: Unfolds(h, s, t) && WellFormed(t) && CanonicalizeGraph(h, s) == Done(Canonicalized(t))
  {
    NormalizeIsExact(h, s);
    if !ReachesCycle(h, s) {
      var t :| Unfolds(h, s, t);
      TextOfUnfolding(h, s, t);
    }
  }

  /**
   Two graphs without reachable cycles, in the same heap or not and however they share objects, have the same
   canonical text if and only if what one sees by following the references means the same JSON value.
   */
  lemma GraphTextIsExact(h: Heap, a: Slot, g: Heap, b: Slot, t: Js, u: Js)
    requires Closed(h) && SlotOk(h, a) && Closed(g) && SlotOk(g, b)
    requires Unfolds(h, a, t) && Unfolds(g, b, u)
    ensures CanonicalizeGraph(h, a).Done? && CanonicalizeGraph(g, b).Done?
    ensures CanonicalizeGraph(h, a) == CanonicalizeGraph(g, b) <==> Meaning(t) == Meaning(u)
  {
    TextOfUnfolding(h, a, t);
    TextOfUnfolding(g, b, u);
    CanonicalizationIsExact(t, u);
  }
}
