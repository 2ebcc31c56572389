/** The traversal as a `__` flattener is expected to behave, and as the
    unused index buffer of the array branch shows was meant: each object entry is visited with the incoming path plus its
    own key only, and each array item with the incoming path plus its index.
    It shares the tree, names and printed lines with the as-written model. */
module CorrectedFlatten {
  import opened JsonValue
  import opened Decimal
  import opened Naming
  import opened Flatten

  function FixedVisits(v: Json, key: Option<seq<string>>): seq<Visit>
    decreases v
  {
    match v
    case Object(es) => FixedObjectVisits(es, BufferOf(key), |es|)
    case Array(items) => FixedArrayVisits(items, BufferOf(key), |items|)
    case _ => if key.Some? then [Visit(key.value, v)] else []
  }

  /** The first `n` entries, each under `base` and its own key. */
  function FixedObjectVisits(es: seq<Entry>, base: seq<string>, n: nat): seq<Visit>
    requires n <= |es|
    decreases es, n
  {
    if n == 0 then []
    else FixedObjectVisits(es, base, n - 1) + FixedVisits(es[n - 1].value, Some(base + [es[n - 1].key]))
  }

  /** The first `n` items, each under `base` and its decimal index. */
  function FixedArrayVisits(items: seq<Json>, base: seq<string>, n: nat): seq<Visit>
    requires n <= |items|
    decreases items, n
  {
    if n == 0 then []
    else FixedArrayVisits(items, base, n - 1) + FixedVisits(items[n - 1], Some(base + [NatToString(n - 1)]))
  }

  function FixedLines(v: Json, key: Option<seq<string>>): seq<Line> {
    Render(FixedVisits(v, key))
  }

  lemma FixedObjectStep(es: seq<Entry>, base: seq<string>, i: nat, stdout: seq<Line>, out: seq<Line>)
    requires i < |es|
    requires out == stdout + Render(FixedObjectVisits(es, base, i))
    ensures out + FixedLines(es[i].value, Some(base + [es[i].key]))
         == stdout + Render(FixedObjectVisits(es, base, i + 1))
  {
    var prev := FixedObjectVisits(es, base, i);
    var block := FixedVisits(es[i].value, Some(base + [es[i].key]));
    assert FixedObjectVisits(es, base, i + 1) == prev + block;
    PrintAfter(stdout, prev, block);
  }

  lemma FixedArrayStep(items: seq<Json>, base: seq<string>, i: nat, stdout: seq<Line>, out: seq<Line>)
    requires i < |items|
    requires out == stdout + Render(FixedArrayVisits(items, base, i))
    ensures out + FixedLines(items[i], Some(base + [NatToString(i)]))
         == stdout + Render(FixedArrayVisits(items, base, i + 1))
  {
    var prev := FixedArrayVisits(items, base, i);
    var block := FixedVisits(items[i], Some(base + [NatToString(i)]));
    assert FixedArrayVisits(items, base, i + 1) == prev + block;
    PrintAfter(stdout, prev, block);
  }

  /** The corrected traversal: a fresh buffer per entry and per item, and
      the index-extended buffer passed down. */
  method FixedAppsettingsJsonToEnvRecursive(v: Json, key: Option<seq<string>>, stdout: seq<Line>)
    returns (out: seq<Line>)
    ensures out == stdout + FixedLines(v, key)
    decreases v
  {
    out := stdout;
    match v {
      case Object(es) =>
        for i := 0 to |es|
          invariant out == stdout + Render(FixedObjectVisits(es, BufferOf(key), i))
        {
          var keyBuff := match key case Some(arr) => arr case None => [];
          keyBuff := keyBuff + [es[i].key];
          FixedObjectStep(es, BufferOf(key), i, stdout, out);
          out := FixedAppsettingsJsonToEnvRecursive(es[i].value, Some(keyBuff), out);
        }
        assert FixedLines(v, key) == Render(FixedObjectVisits(es, BufferOf(key), |es|));
      case Array(items) =>
        for i := 0 to |items|
          invariant out == stdout + Render(FixedArrayVisits(items, BufferOf(key), i))
        {
          var keyBuff := match key case Some(arr) => arr case None => [];
          var formattedIdx := NatToString(i);
          keyBuff := keyBuff + [formattedIdx];
          FixedArrayStep(items, BufferOf(key), i, stdout, out);
          out := FixedAppsettingsJsonToEnvRecursive(items[i], Some(keyBuff), out);
        }
        assert FixedLines(v, key) == Render(FixedArrayVisits(items, BufferOf(key), |items|));
      case _ =>
        if key.Some? {
          var name := CapitalizeAndJoin(key.value);
          out := out + [Line(name, v)];
          assert FixedLines(v, key) == Render([Visit(key.value, v)]) == [Line(name, v)];
        } else {
          assert FixedLines(v, key) == Render([]);
        }
    }
  }

  // ---------------------------------------------------------------------
  // Properties of the corrected traversal

  /** The corrected traversal prints every leaf strictly below the root,
      in depth-first order, whatever the root is. */
  lemma {:induction false} FixedLeafOrder(v: Json, key: Option<seq<string>>)
    ensures LeafValues(FixedVisits(v, key)) == if key.None? && IsLeaf(v) then [] else Leaves(v)
    decreases v
  {
    match v
    case Object(es) => FixedObjectLeafOrder(es, BufferOf(key), |es|);
    case Array(items) => FixedArrayLeafOrder(items, BufferOf(key), |items|);
    case _ =>
  }

  lemma {:induction false} FixedObjectLeafOrder(es: seq<Entry>, base: seq<string>, n: nat)
    requires n <= |es|
    ensures LeafValues(FixedObjectVisits(es, base, n)) == EntryLeaves(es, n)
    decreases es, n
  {
    if n > 0 {
      var q := base + [es[n - 1].key];
      var prev := FixedObjectVisits(es, base, n - 1);
      var block := FixedVisits(es[n - 1].value, Some(q));
      FixedObjectLeafOrder(es, base, n - 1);
      FixedLeafOrder(es[n - 1].value, Some(q));
      assert FixedObjectVisits(es, base, n) == prev + block;
      LeafValuesAppend(prev, block);
      assert EntryLeaves(es, n) == EntryLeaves(es, n - 1) + Leaves(es[n - 1].value);
    }
  }

  lemma {:induction false} FixedArrayLeafOrder(items: seq<Json>, base: seq<string>, n: nat)
    requires n <= |items|
    ensures LeafValues(FixedArrayVisits(items, base, n)) == ItemLeaves(items, n)
    decreases items, n
  {
    if n > 0 {
      var q := base + [NatToString(n - 1)];
      var prev := FixedArrayVisits(items, base, n - 1);
      var block := FixedVisits(items[n - 1], Some(q));
      FixedArrayLeafOrder(items, base, n - 1);
      FixedLeafOrder(items[n - 1], Some(q));
      assert FixedArrayVisits(items, base, n) == prev + block;
      LeafValuesAppend(prev, block);
      assert ItemLeaves(items, n) == ItemLeaves(items, n - 1) + Leaves(items[n - 1]);
    }
  }

  /** Below a key both traversals reach the same leaves in the same order;
      they differ only in the paths, hence the names. */
  lemma SameLeavesAsWritten(v: Json, p: seq<string>)
    ensures LeafValues(FixedVisits(v, Some(p))) == LeafValues(Visits(v, Some(p)))
  {
    FixedLeafOrder(v, Some(p));
    LeafOrder(v, Some(p));
  }

  /** From the root the two differ: the as-written array branch never builds
      a key, so a root array of leaves prints nothing, while the corrected one
      names its items by index alone. */
  lemma RootArrayDiffers()
    ensures Lines(Array([Str("a")]), None) == []
    ensures FixedLines(Array([Str("a")]), None) == [Line("0", Str("a"))]
  {
    var items := [Str("a")];
    assert ArrayVisits(items, None, 1) == ArrayVisits(items, None, 0) + Visits(Str("a"), None);
    var none: seq<string> := [];
    assert none + [NatToString(0)] == ["0"];
    assert FixedArrayVisits(items, [], 1) == FixedArrayVisits(items, [], 0) + FixedVisits(Str("a"), Some(["0"]));
    JoinShort("0");
    assert Upper("0") == "0";
  }

  /** Every leaf is reached with a path extending the key it was entered with. */
  lemma {:induction false} FixedPathsExtendKey(v: Json, p: seq<string>)
    ensures forall i :: 0 <= i < |FixedVisits(v, Some(p))| ==> p <= FixedVisits(v, Some(p))[i].path
    decreases v
  {
    match v
    case Object(es) => FixedObjectPathsExtend(es, p, |es|);
    case Array(items) => FixedArrayPathsExtend(items, p, |items|);
    case _ =>
  }

  lemma {:induction false} FixedObjectPathsExtend(es: seq<Entry>, base: seq<string>, n: nat)
    requires n <= |es|
    ensures forall i :: 0 <= i < |FixedObjectVisits(es, base, n)| ==>
              base <= FixedObjectVisits(es, base, n)[i].path
    decreases es, n
  {
    if n > 0 {
      FixedObjectPathsExtend(es, base, n - 1);
      FixedPathsExtendKey(es[n - 1].value, base + [es[n - 1].key]);
      assert base <= base + [es[n - 1].key];
    }
  }

  lemma {:induction false} FixedArrayPathsExtend(items: seq<Json>, base: seq<string>, n: nat)
    requires n <= |items|
    ensures forall i :: 0 <= i < |FixedArrayVisits(items, base, n)| ==>
              base <= FixedArrayVisits(items, base, n)[i].path
    decreases items, n
  {
    if n > 0 {
      FixedArrayPathsExtend(items, base, n - 1);
      FixedPathsExtendKey(items[n - 1], base + [NatToString(n - 1)]);
      assert base <= base + [NatToString(n - 1)];
    }
  }

  /** No two leaves are reached with the same path. */
  predicate DistinctPaths(vs: seq<Visit>) {
    forall i, j :: 0 <= i < j < |vs| ==> vs[i].path != vs[j].path
  }

  lemma DistinctAppend(a: seq<Visit>, b: seq<Visit>)
    requires DistinctPaths(a) && DistinctPaths(b)
    requires forall i, j :: 0 <= i < |a| && 0 <= j < |b| ==> a[i].path != b[j].path
    ensures DistinctPaths(a + b)
  {
    forall i, j | 0 <= i < j < |a + b| ensures (a + b)[i].path != (a + b)[j].path {
      if j < |a| {
      } else if i >= |a| {
        assert (a + b)[i] == b[i - |a|] && (a + b)[j] == b[j - |a|];
      } else {
        assert (a + b)[j] == b[j - |a|];
      }
    }
  }

  /** Every leaf below the entry with key `k` has `k` right after `base`. */
  lemma SegmentAfterBase(vs: seq<Visit>, base: seq<string>, k: string)
    requires forall i :: 0 <= i < |vs| ==> base + [k] <= vs[i].path
    ensures forall i :: 0 <= i < |vs| ==> |base| < |vs[i].path| && vs[i].path[|base|] == k
  {
    forall i | 0 <= i < |vs| ensures |base| < |vs[i].path| && vs[i].path[|base|] == k {
      assert (base + [k])[|base|] == k;
    }
  }

  /** Since an object's keys are distinct, and array indices are too, the
      corrected traversal reaches every leaf with its own path. */
  lemma {:induction false} FixedPathsDistinct(v: Json, key: Option<seq<string>>)
    requires DistinctKeys(v)
    ensures DistinctPaths(FixedVisits(v, key))
    decreases v
  {
    match v
    case Object(es) => FixedObjectPathsDistinct(es, BufferOf(key), |es|);
    case Array(items) => FixedArrayPathsDistinct(items, BufferOf(key), |items|);
    case _ =>
  }

  lemma {:induction false} FixedObjectPathsDistinct(es: seq<Entry>, base: seq<string>, n: nat)
    requires n <= |es|
    requires forall i, j :: 0 <= i < j < |es| ==> es[i].key != es[j].key
    requires forall i :: 0 <= i < |es| ==> DistinctKeys(es[i].value)
    ensures DistinctPaths(FixedObjectVisits(es, base, n))
    ensures forall i :: 0 <= i < |FixedObjectVisits(es, base, n)| ==>
              |base| < |FixedObjectVisits(es, base, n)[i].path| &&
              FixedObjectVisits(es, base, n)[i].path[|base|] in Keys(es[..n])
    decreases es, n
  {
    if n > 0 {
      var prev := FixedObjectVisits(es, base, n - 1);
      var k := es[n - 1].key;
      var block := FixedVisits(es[n - 1].value, Some(base + [k]));
      FixedObjectPathsDistinct(es, base, n - 1);
      FixedPathsDistinct(es[n - 1].value, Some(base + [k]));
      FixedPathsExtendKey(es[n - 1].value, base + [k]);
      SegmentAfterBase(block, base, k);
      assert Keys(es[..n]) == Keys(es[..n - 1]) + [k];
      assert k !in Keys(es[..n - 1]);
      DistinctAppend(prev, block);
      assert FixedObjectVisits(es, base, n) == prev + block;
    }
  }

  /** A segment written by `NatToString` for an index below `n`. */
  predicate IndexBelow(s: string, n: nat) {
    (forall c :: 0 <= c < |s| ==> IsDigit(s[c])) && ParseDigits(s) < n
  }

  lemma {:induction false} FixedArrayPathsDistinct(items: seq<Json>, base: seq<string>, n: nat)
    requires n <= |items|
    requires forall i :: 0 <= i < |items| ==> DistinctKeys(items[i])
    ensures DistinctPaths(FixedArrayVisits(items, base, n))
    ensures forall i :: 0 <= i < |FixedArrayVisits(items, base, n)| ==>
              |base| < |FixedArrayVisits(items, base, n)[i].path| &&
              IndexBelow(FixedArrayVisits(items, base, n)[i].path[|base|], n)
    decreases items, n
  {
    if n > 0 {
      var prev := FixedArrayVisits(items, base, n - 1);
      var k := NatToString(n - 1);
      var block := FixedVisits(items[n - 1], Some(base + [k]));
      FixedArrayPathsDistinct(items, base, n - 1);
      FixedPathsDistinct(items[n - 1], Some(base + [k]));
      FixedPathsExtendKey(items[n - 1], base + [k]);
      SegmentAfterBase(block, base, k);
      ParseNatToString(n - 1);
      DistinctAppend(prev, block);
      assert FixedArrayVisits(items, base, n) == prev + block;
    }
  }

  /** An array of leaves under a non-empty path gives each item its own
      name: the array's name, `__`, and the item's index. */
  lemma {:induction false} FixedArrayOfLeaves(items: seq<Json>, p: seq<string>)
    requires p != []
    requires forall i :: 0 <= i < |items| ==> IsLeaf(items[i])
    ensures FixedLines(Array(items), Some(p))
         == seq(|items|, i requires 0 <= i < |items| => Line(Join(p) + "__" + NatToString(i), items[i]))
  {
    FixedArrayOfLeavesUpTo(items, p, |items|);
  }

  lemma {:induction false} FixedArrayOfLeavesUpTo(items: seq<Json>, p: seq<string>, n: nat)
    requires n <= |items| && p != []
    requires forall i :: 0 <= i < |items| ==> IsLeaf(items[i])
    ensures Render(FixedArrayVisits(items, p, n))
         == seq(n, i requires 0 <= i < n => Line(Join(p) + "__" + NatToString(i), items[i]))
    decreases n
  {
    if n > 0 {
      FixedArrayOfLeavesUpTo(items, p, n - 1);
      JoinSnoc(p, NatToString(n - 1));
      UpperOfDigits(NatToString(n - 1));
      RenderAppend(FixedArrayVisits(items, p, n - 1), FixedVisits(items[n - 1], Some(p + [NatToString(n - 1)])));
    }
  }

  /** A tree in which no object has two entries and every array is empty:
      the shape on which neither defect of the as-written traversal shows. */
  predicate Unbranched(v: Json)
    decreases v
  {
    match v
    case Object(es) => |es| <= 1 && forall i :: 0 <= i < |es| ==> Unbranched(es[i].value)
    case Array(items) => items == []
    case _ => true
  }

  /** On such trees the as-written and the corrected traversals agree. */
  lemma {:induction false} AgreeWhenUnbranched(v: Json, key: Option<seq<string>>)
    requires Unbranched(v)
    ensures Visits(v, key) == FixedVisits(v, key)
    decreases v
  {
    match v
    case Object(es) =>
      if |es| == 1 {
        var base := BufferOf(key);
        assert Keys(es[..1]) == [es[0].key];
        assert EntryPath(es, base, 0) == base + [es[0].key];
        AgreeWhenUnbranched(es[0].value, Some(base + [es[0].key]));
        assert ObjectVisits(es, base, 1) == Visits(es[0].value, Some(base + [es[0].key]));
        assert FixedObjectVisits(es, base, 1) == FixedVisits(es[0].value, Some(base + [es[0].key]));
      }
    case Array(_) =>
    case _ =>
  }

  // ---------------------------------------------------------------------
  // Worked inputs

  /** `{"A":{"B":"x","C":1}}` gives `A__B` and `A__C`. */
  lemma NestedSiblingsFixedVisits()
    ensures FixedVisits(Object([Entry("A", Object([Entry("B", Str("x")), Entry("C", Num("1"))]))]), None)
         == [Visit(["A", "B"], Str("x")), Visit(["A", "C"], Num("1"))]
  {
    var inner := [Entry("B", Str("x")), Entry("C", Num("1"))];
    var outer := [Entry("A", Object(inner))];
    var none: seq<string> := [];
    assert none + ["A"] == ["A"];
    assert FixedObjectVisits(outer, [], 1) == FixedVisits(Object(inner), Some(["A"]));
    assert ["A"] + ["B"] == ["A", "B"] && ["A"] + ["C"] == ["A", "C"];
  }

  lemma NestedSiblingsFixed()
    ensures Names(FixedLines(Object([Entry("A", Object([Entry("B", Str("x")), Entry("C", Num("1"))]))]), None))
         == ["A__B", "A__C"]
  {
    NestedSiblingsFixedVisits();
    JoinShort("A");
    assert Upper("A") == "A" && Upper("B") == "B" && Upper("C") == "C";
    assert Join(["A", "B"]) == "A__B" by {
      JoinSnoc(["A"], "B");
      assert ["A"] + ["B"] == ["A", "B"];
    }
    assert Join(["A", "C"]) == "A__C" by {
      JoinSnoc(["A"], "C");
      assert ["A"] + ["C"] == ["A", "C"];
    }
  }

  /** `{"Flag":true,"Missing":null}` gives `FLAG` and `MISSING`. */
  lemma RootSiblingsFixed()
    ensures Names(FixedLines(Object([Entry("Flag", Bool(true)), Entry("Missing", Null)]), None))
         == ["FLAG", "MISSING"]
  {
    var es := [Entry("Flag", Bool(true)), Entry("Missing", Null)];
    var none: seq<string> := [];
    assert none + ["Flag"] == ["Flag"] && none + ["Missing"] == ["Missing"];
    assert FixedObjectVisits(es, none, 1) == [Visit(["Flag"], Bool(true))];
    assert FixedVisits(Object(es), None) == [Visit(["Flag"], Bool(true)), Visit(["Missing"], Null)];
    JoinShort("Flag");
    JoinShort("Missing");
    assert Upper("Flag") == "FLAG" && Upper("Missing") == "MISSING";
  }

  /** `{"List":["a","b"]}` gives `LIST__0` and `LIST__1`. */
  lemma ArrayItemsFixed()
    ensures Names(FixedLines(Object([Entry("List", Array([Str("a"), Str("b")]))]), None)) == ["LIST__0", "LIST__1"]
  {
    var items := [Str("a"), Str("b")];
    var es := [Entry("List", Array(items))];
    var none: seq<string> := [];
    assert none + ["List"] == ["List"];
    assert FixedObjectVisits(es, [], 1) == FixedVisits(Array(items), Some(["List"]));
    assert FixedLines(Object(es), None) == FixedLines(Array(items), Some(["List"]));
    FixedArrayOfLeaves(items, ["List"]);
    JoinShort("List");
    assert Upper("List") == "LIST";
    assert NatToString(0) == "0" && NatToString(1) == "1";
    assert Join(["List"]) + "__" + NatToString(0) == "LIST__0";
    assert Join(["List"]) + "__" + NatToString(1) == "LIST__1";
  }
}
