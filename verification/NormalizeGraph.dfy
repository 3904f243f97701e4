/**
 normalize on the heap: a depth-first walk over objects that may be shared and may form cycles, with the
 objects on the current path kept in `seen`. It throws exactly when a cycle can be reached, leaves `seen` as
 it was either way, and otherwise returns what the tree unfolding of the graph normalizes to.
 */
module NormalizeGraph {
  import opened JsonText
  import opened PropertyOrder
  import opened Canonical

  // ---- the heap ----------------------------------------------------------------------------------

  /** What a variable holds: a primitive value, or a reference to an array or a plain object. */
  datatype Slot = Plain(v: Js) | Ref(node: nat)

  /** An object is its own enumerable keys, in Object.keys order, and what it holds under each. */
  datatype Node = ArrayNode(items: seq<Slot>) | ObjectNode(keys: seq<JsString>, slots: map<JsString, Slot>)

  type Heap = map<nat, Node>

  predicate SlotOk(h: Heap, s: Slot) {
    match s
    case Plain(v) => !v.Arr? && !v.Obj? && WellFormed(v)
    case Ref(n) => n in h
  }

  predicate DistinctKeys(keys: seq<JsString>) {
    forall j, k :: 0 <= j < k < |keys| ==> keys[j] != keys[k]
  }

  predicate NodeOk(h: Heap, n: Node) {
    match n
    case ArrayNode(items) => forall k :: 0 <= k < |items| ==> SlotOk(h, items[k])
    case ObjectNode(keys, slots) =>
      && DistinctKeys(keys)
      && forall k :: 0 <= k < |keys| ==> keys[k] in slots && SlotOk(h, slots[keys[k]])
  }

  predicate Closed(h: Heap) {
    forall n :: n in h ==> NodeOk(h, h[n])
  }

  // ---- the walk ----------------------------------------------------------------------------------

  datatype Outcome<+T> = Done(value: T) | Thrown

  /** The keys as properties, so that they sort the way properties do. */
  function Bare(keys: seq<JsString>): (r: seq<Prop>)
    ensures |r| == |keys| && forall k :: 0 <= k < |r| ==> r[k] == Prop(keys[k], Undefined)
  {
    seq(|keys|, k requires 0 <= k < |keys| => Prop(keys[k], Undefined))
  }

  function KeysOf(props: seq<Prop>): (r: seq<JsString>)
    ensures |r| == |props| && forall k :: 0 <= k < |r| ==> r[k] == props[k].key
  {
    seq(|props|, k requires 0 <= k < |props| => props[k].key)
  }

  lemma SortedKeysElements(keys: seq<JsString>)
    ensures forall key :: key in KeysOf(Sorted(CodeUnitLess, Bare(keys))) <==> key in keys
  {
    var bare := Bare(keys);
    var sorted := Sorted(CodeUnitLess, bare);
    SortedElements(CodeUnitLess, bare);
    forall key ensures key in KeysOf(sorted) <==> key in keys {
      if key in KeysOf(sorted) {
        var k :| 0 <= k < |sorted| && sorted[k].key == key;
        assert sorted[k] in bare;
      }
      if key in keys {
        var k :| 0 <= k < |keys| && keys[k] == key;
        assert bare[k] in sorted;
      }
    }
  }

  /** Object.keys(...).sort() */
  function SortedKeys(keys: seq<JsString>): (r: seq<JsString>)
    ensures forall key :: key in r <==> key in keys
  {
    SortedKeysElements(keys);
    KeysOf(Sorted(CodeUnitLess, Bare(keys)))
  }

  lemma SeenGrows(h: Heap, n: nat, seen: set<nat>)
    requires n in h && n !in seen
    ensures |h.Keys - (seen + {n})| < |h.Keys - seen|
  {
    assert h.Keys - seen == (h.Keys - (seen + {n})) + {n};
  }

  /** What normalize returns with `seen` on the path. */
  function Normalize(h: Heap, s: Slot, seen: set<nat>): Outcome<Js>
    requires Closed(h) && SlotOk(h, s)
    decreases |h.Keys - seen|, 0
  {
    match s
    case Plain(v) => Done(v)
    case Ref(n) =>
      if n in seen then Thrown
      else
        SeenGrows(h, n, seen);
        match h[n]
        case ArrayNode(items) =>
          (match NormalizeItems(h, items, seen + {n})
           case Done(vs) => Done(Arr(vs))
           case Thrown => Thrown)
        case ObjectNode(keys, slots) =>
          (match NormalizeFields(h, SortedKeys(keys), slots, seen + {n})
           case Done(ps) => Done(Obj(ps))
           case Thrown => Thrown)
  }

  predicate ItemsOk(h: Heap, items: seq<Slot>) {
    forall k :: 0 <= k < |items| ==> SlotOk(h, items[k])
  }

  predicate FieldsOk(h: Heap, keys: seq<JsString>, slots: map<JsString, Slot>) {
    forall key :: key in keys ==> key in slots && SlotOk(h, slots[key])
  }

  function NormalizeItems(h: Heap, items: seq<Slot>, seen: set<nat>): Outcome<seq<Js>>
    requires Closed(h) && ItemsOk(h, items)
    decreases |h.Keys - seen|, 1 + |items|
  {
    if items == [] then Done([])
    else match Normalize(h, items[0], seen)
      case Thrown => Thrown
      case Done(v) =>
        match NormalizeItems(h, items[1..], seen)
        case Thrown => Thrown
        case Done(vs) => Done([v] + vs)
  }

  /** The property a key leaves on the fresh object: none if it is undefined or names the prototype. */
  function Assigned(key: JsString, v: Js): seq<Prop> {
    if Kept(Prop(key, v)) then [Prop(key, v)] else []
  }

  function NormalizeFields(h: Heap, keys: seq<JsString>, slots: map<JsString, Slot>, seen: set<nat>): Outcome<seq<Prop>>
    requires Closed(h) && FieldsOk(h, keys, slots)
    decreases |h.Keys - seen|, 1 + |keys|
  {
    if keys == [] then Done([])
    else
      var rest := NormalizeFields(h, keys[1..], slots, seen);
      if slots[keys[0]] == Plain(Undefined) then rest
      else match Normalize(h, slots[keys[0]], seen)
        case Thrown => Thrown
        case Done(v) =>
          match rest
          case Thrown => Thrown
          case Done(ps) => Done(Assigned(keys[0], v) + ps)
  }

  // ---- as the code does it -----------------------------------------------------------------------

  function Prefixed<T>(front: seq<T>, o: Outcome<seq<T>>): Outcome<seq<T>> {
    if o.Done? then Done(front + o.value) else Thrown
  }

  lemma PrefixedNothing<T>(o: Outcome<seq<T>>)
    ensures Prefixed([], o) == o
  {
    if o.Done? { assert [] + o.value == o.value; }
  }

  lemma PrefixedTwice<T>(a: seq<T>, b: seq<T>, o: Outcome<seq<T>>)
    ensures Prefixed(a, Prefixed(b, o)) == Prefixed(a + b, o)
  {
    if o.Done? { assert a + (b + o.value) == a + b + o.value; }
  }

  /** The WeakSet that normalize passes along. */
  class Seen {
    var nodes: set<nat>

    constructor ()
      ensures nodes == {}
    {
      nodes := {};
    }
  }

  method NormalizeValue(h: Heap, s: Slot, seen: Seen) returns (r: Outcome<Js>)
    requires Closed(h) && SlotOk(h, s)
    modifies seen
    ensures seen.nodes == old(seen.nodes) && r == Normalize(h, s, old(seen.nodes))
    decreases |h.Keys - seen.nodes|, 0
  {
    if s.Plain? {
      return Done(s.v);
    }
    if s.node in seen.nodes {
      return Thrown;
    }
    SeenGrows(h, s.node, seen.nodes);
    ghost var before := seen.nodes;
    seen.nodes := seen.nodes + {s.node};
    match h[s.node] {
      case ArrayNode(items) =>
        var vs := MapItems(h, items, seen);
        r := if vs.Done? then Done(Arr(vs.value)) else Thrown;
      case ObjectNode(keys, slots) =>
        var ps := FillSorted(h, SortedKeys(keys), slots, seen);
        r := if ps.Done? then Done(Obj(ps.value)) else Thrown;
    }
    assert before + {s.node} - {s.node} == before;
    seen.nodes := seen.nodes - {s.node};
  }

  lemma NormalizeItemsFrom(h: Heap, items: seq<Slot>, k: nat, seen: set<nat>)
    requires Closed(h) && ItemsOk(h, items) && k < |items|
    ensures NormalizeItems(h, items[k..], seen) ==
      match Normalize(h, items[k], seen)
      case Thrown => Thrown
      case Done(v) => Prefixed([v], NormalizeItems(h, items[k + 1..], seen))
  {
    assert items[k..][1..] == items[k + 1..];
  }

  /** value.map(...): the first element that throws ends it. */
  method MapItems(h: Heap, items: seq<Slot>, seen: Seen) returns (r: Outcome<seq<Js>>)
    requires Closed(h) && ItemsOk(h, items)
    modifies seen
    ensures seen.nodes == old(seen.nodes) && r == NormalizeItems(h, items, old(seen.nodes))
    decreases |h.Keys - seen.nodes|, 1
  {
    var vs := [];
    var k := 0;
    ghost var path := seen.nodes;
    PrefixedNothing(NormalizeItems(h, items, path));
    assert items[0..] == items;
    while k < |items|
      invariant 0 <= k <= |items| && seen.nodes == path
      invariant NormalizeItems(h, items, path) == Prefixed(vs, NormalizeItems(h, items[k..], path))
    {
      NormalizeItemsFrom(h, items, k, path);
      var v := NormalizeValue(h, items[k], seen);
      if v.Thrown? {
        return Thrown;
      }
      PrefixedTwice(vs, [v.value], NormalizeItems(h, items[k + 1..], path));
      vs := vs + [v.value];
      k := k + 1;
    }
    assert items[k..] == [] && vs + [] == vs;
    return Done(vs);
  }

  lemma NormalizeFieldsFrom(h: Heap, keys: seq<JsString>, k: nat, slots: map<JsString, Slot>, seen: set<nat>)
    requires Closed(h) && FieldsOk(h, keys, slots) && k < |keys|
    ensures NormalizeFields(h, keys[k..], slots, seen) ==
      if slots[keys[k]] == Plain(Undefined) then NormalizeFields(h, keys[k + 1..], slots, seen)
      else match Normalize(h, slots[keys[k]], seen)
        case Thrown => Thrown
        case Done(v) => Prefixed(Assigned(keys[k], v), NormalizeFields(h, keys[k + 1..], slots, seen))
  {
    assert keys[k..][1..] == keys[k + 1..];
  }

  /** The loop that fills `sorted`. */
  method FillSorted(h: Heap, keys: seq<JsString>, slots: map<JsString, Slot>, seen: Seen)
    returns (r: Outcome<seq<Prop>>)
    requires Closed(h) && FieldsOk(h, keys, slots)
    modifies seen
    ensures seen.nodes == old(seen.nodes) && r == NormalizeFields(h, keys, slots, old(seen.nodes))
    decreases |h.Keys - seen.nodes|, 1
  {
    var sorted := [];
    var k := 0;
    ghost var path := seen.nodes;
    PrefixedNothing(NormalizeFields(h, keys, slots, path));
    assert keys[0..] == keys;
    while k < |keys|
      invariant 0 <= k <= |keys| && seen.nodes == path
      invariant NormalizeFields(h, keys, slots, path) == Prefixed(sorted, NormalizeFields(h, keys[k..], slots, path))
    {
      var key := keys[k];
      NormalizeFieldsFrom(h, keys, k, slots, path);
      if slots[key] == Plain(Undefined) {
        k := k + 1;
        continue;
      }
      var v := NormalizeValue(h, slots[key], seen);
      if v.Thrown? {
        return Thrown;
      }
      PrefixedTwice(sorted, Assigned(key, v.value), NormalizeFields(h, keys[k + 1..], slots, path));
      sorted := sorted + Assigned(key, v.value);
      k := k + 1;
    }
    assert keys[k..] == [] && sorted + [] == sorted;
    return Done(sorted);
  }
}
