/** The parsed configuration tree the flattener walks, and reference
    definitions of which leaves it contains, in depth-first order. */
module JsonValue {

  datatype Option<+T> = None | Some(value: T)

  /** A parsed JSON value. Object entries keep the parser's iteration order;
      a number keeps its textual form. */
  datatype Json =
    | Object(entries: seq<Entry>)
    | Array(items: seq<Json>)
    | Str(text: string)
    | Num(repr: string)
    | Bool(b: bool)
    | Null

  /** One key/value member of an object. */
  datatype Entry = Entry(key: string, value: Json)

  /** A primitive value: string, number, boolean or null. */
  predicate IsLeaf(v: Json) {
    !v.Object? && !v.Array?
  }

  /** The key path the traversal starts from: the given one, or none. */
  function BufferOf(key: Option<seq<string>>): (buf: seq<string>)
    ensures key.Some? ==> buf == key.value
    ensures key.None? ==> buf == []
  {
    match key
    case Some(arr) => arr
    case None => []
  }

  /** The keys of an object's entries, in entry order. */
  function Keys(es: seq<Entry>): (ks: seq<string>)
    ensures |ks| == |es|
    ensures forall i :: 0 <= i < |es| ==> ks[i] == es[i].key
  {
    seq(|es|, i requires 0 <= i < |es| => es[i].key)
  }

  /** Every leaf of `v`, `v` itself included when it is a leaf, in
      depth-first order: entries in object order, items in index order. */
  function Leaves(v: Json): seq<Json>
    decreases v
  {
    match v
    case Object(es) => EntryLeaves(es, |es|)
    case Array(items) => ItemLeaves(items, |items|)
    case _ => [v]
  }

  /** The leaves of the first `n` entries' values. */
  function EntryLeaves(es: seq<Entry>, n: nat): seq<Json>
    requires n <= |es|
    decreases es, n
  {
    if n == 0 then [] else EntryLeaves(es, n - 1) + Leaves(es[n - 1].value)
  }

  /** The leaves of the first `n` array items. */
  function ItemLeaves(items: seq<Json>, n: nat): seq<Json>
    requires n <= |items|
    decreases items, n
  {
    if n == 0 then [] else ItemLeaves(items, n - 1) + Leaves(items[n - 1])
  }

  /** The leaves of `v` that have at least one object among their ancestors,
      in depth-first order. */
  function KeyedLeaves(v: Json): seq<Json>
    decreases v
  {
    match v
    case Object(es) => EntryLeaves(es, |es|)
    case Array(items) => ItemKeyedLeaves(items, |items|)
    case _ => []
  }

  /** The keyed leaves of the first `n` array items. */
  function ItemKeyedLeaves(items: seq<Json>, n: nat): seq<Json>
    requires n <= |items|
    decreases items, n
  {
    if n == 0 then [] else ItemKeyedLeaves(items, n - 1) + KeyedLeaves(items[n - 1])
  }

  /** No object occurs anywhere in `v`. */
  predicate NoObject(v: Json)
    decreases v
  {
    match v
    case Object(_) => false
    case Array(items) => forall i :: 0 <= i < |items| ==> NoObject(items[i])
    case _ => true
  }

  /** Serde's map type keeps one value per key: within every object of `v`
      the keys are pairwise distinct. */
  predicate DistinctKeys(v: Json)
    decreases v
  {
    match v
    case Object(es) =>
      (forall i, j :: 0 <= i < j < |es| ==> es[i].key != es[j].key) &&
      (forall i :: 0 <= i < |es| ==> DistinctKeys(es[i].value))
    case Array(items) => forall i :: 0 <= i < |items| ==> DistinctKeys(items[i])
    case _ => true
  }

  /** An object without an object ancestor contributes all its leaves;
      a tree without objects contributes none. */
  lemma {:induction false} KeyedLeavesOfNoObject(v: Json)
    requires NoObject(v)
    ensures KeyedLeaves(v) == []
    decreases v
  {
    match v
    case Array(items) => ItemKeyedLeavesOfNoObject(items, |items|);
    case _ =>
  }

  lemma {:induction false} ItemKeyedLeavesOfNoObject(items: seq<Json>, n: nat)
    requires n <= |items|
    requires forall i :: 0 <= i < |items| ==> NoObject(items[i])
    ensures ItemKeyedLeaves(items, n) == []
    decreases items, n
  {
    if n > 0 {
      ItemKeyedLeavesOfNoObject(items, n - 1);
      KeyedLeavesOfNoObject(items[n - 1]);
    }
  }
}
