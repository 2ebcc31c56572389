/** `appsettings_json_to_env_recursive` as it is written: the traversal that
    prints one `NAME=VALUE` line per primitive leaf reached with a key path.

    Two features of the code are kept exactly. In an object, the key buffer
    is built once and every entry's key is pushed onto it without being
    popped, so entry j is visited with the incoming path followed by the
    keys of entries 0..j. In an array, the index is pushed onto a fresh
    buffer that is then not used: every item is visited with the incoming
    key unchanged. */
module Flatten {
  import opened JsonValue
  import opened Decimal
  import opened Naming

  /** A leaf reached by the traversal, with the key path it was reached with. */
  datatype Visit = Visit(path: seq<string>, leaf: Json)

  /** One printed line: the variable name, and the leaf printed after `=`. */
  datatype Line = Line(name: string, value: Json)

  /** The path object entry `j` is visited with: the incoming buffer, then
      the keys of entries 0 to j. */
  function EntryPath(es: seq<Entry>, base: seq<string>, j: nat): seq<string>
    requires j < |es|
  {
    base + Keys(es[..j + 1])
  }

  /** The leaves the traversal reaches from `v` with `key`, in the order it
      prints them. */
  function Visits(v: Json, key: Option<seq<string>>): seq<Visit>
    decreases v
  {
    match v
    case Object(es) => ObjectVisits(es, BufferOf(key), |es|)
    case Array(items) => ArrayVisits(items, key, |items|)
    case _ => if key.Some? then [Visit(key.value, v)] else []
  }

  /** What the first `n` entries of an object print, the buffer having
      started as `base`. */
  function ObjectVisits(es: seq<Entry>, base: seq<string>, n: nat): seq<Visit>
    requires n <= |es|
    decreases es, n
  {
    if n == 0 then []
    else ObjectVisits(es, base, n - 1) + Visits(es[n - 1].value, Some(EntryPath(es, base, n - 1)))
  }

  /** What the first `n` items of an array print: each under the array's
      own key. */
  function ArrayVisits(items: seq<Json>, key: Option<seq<string>>, n: nat): seq<Visit>
    requires n <= |items|
    decreases items, n
  {
    if n == 0 then [] else ArrayVisits(items, key, n - 1) + Visits(items[n - 1], key)
  }

  /** The printed lines for a sequence of visits: each path becomes its name. */
  function Render(vs: seq<Visit>): seq<Line> {
    seq(|vs|, i requires 0 <= i < |vs| => Line(Join(vs[i].path), vs[i].leaf))
  }

  /** Everything printed by a call on `v` with `key`. */
  function Lines(v: Json, key: Option<seq<string>>): seq<Line> {
    Render(Visits(v, key))
  }

  function LeafValues(vs: seq<Visit>): (ls: seq<Json>)
    ensures |ls| == |vs|
    ensures forall i :: 0 <= i < |vs| ==> ls[i] == vs[i].leaf
  {
    seq(|vs|, i requires 0 <= i < |vs| => vs[i].leaf)
  }

  lemma KeysSnoc(es: seq<Entry>, i: nat)
    requires i < |es|
    ensures Keys(es[..i + 1]) == Keys(es[..i]) + [es[i].key]
  {
  }

  lemma RenderAppend(a: seq<Visit>, b: seq<Visit>)
    ensures Render(a + b) == Render(a) + Render(b)
  {
  }

  /** Printing the lines of `block` after those of `prev` prints the lines
      of `prev + block`. */
  lemma PrintAfter(stdout: seq<Line>, prev: seq<Visit>, block: seq<Visit>)
    ensures stdout + Render(prev) + Render(block) == stdout + Render(prev + block)
  {
    RenderAppend(prev, block);
  }

  lemma LeafValuesAppend(a: seq<Visit>, b: seq<Visit>)
    ensures LeafValues(a + b) == LeafValues(a) + LeafValues(b)
  {
  }

  /** One more entry of an object: the buffer grows by its key, and the
      output by what its value prints under the grown buffer. */
  lemma ObjectStep(es: seq<Entry>, base: seq<string>, i: nat, stdout: seq<Line>, out: seq<Line>)
    requires i < |es|
    requires out == stdout + Render(ObjectVisits(es, base, i))
    ensures out + Lines(es[i].value, Some(EntryPath(es, base, i)))
         == stdout + Render(ObjectVisits(es, base, i + 1))
  {
    var prev := ObjectVisits(es, base, i);
    var block := Visits(es[i].value, Some(EntryPath(es, base, i)));
    assert ObjectVisits(es, base, i + 1) == prev + block;
    PrintAfter(stdout, prev, block);
  }

  /** One more item of an array: the output grows by what it prints under
      the array's own key. */
  lemma ArrayStep(items: seq<Json>, key: Option<seq<string>>, i: nat, stdout: seq<Line>, out: seq<Line>)
    requires i < |items|
    requires out == stdout + Render(ArrayVisits(items, key, i))
    ensures out + Lines(items[i], key) == stdout + Render(ArrayVisits(items, key, i + 1))
  {
    var prev := ArrayVisits(items, key, i);
    var block := Visits(items[i], key);
    assert ArrayVisits(items, key, i + 1) == prev + block;
    PrintAfter(stdout, prev, block);
  }

  /** The traversal. `stdout` is what has been printed before the call;
      the result is that followed by what the call prints. */
  method AppsettingsJsonToEnvRecursive(v: Json, key: Option<seq<string>>, stdout: seq<Line>)
    returns (out: seq<Line>)
    ensures out == stdout + Lines(v, key)
    decreases v
  {
    out := stdout;
    match v {
      case Object(es) =>
        var keyBuff := match key case Some(arr) => arr case None => [];
        for i := 0 to |es|
          invariant keyBuff == BufferOf(key) + Keys(es[..i])
          invariant out == stdout + Render(ObjectVisits(es, BufferOf(key), i))
        {
          KeysSnoc(es, i);
          ObjectStep(es, BufferOf(key), i, stdout, out);
          keyBuff := keyBuff + [es[i].key];
          assert keyBuff == EntryPath(es, BufferOf(key), i);
          out := AppsettingsJsonToEnvRecursive(es[i].value, Some(keyBuff), out);
        }
        assert Lines(v, key) == Render(ObjectVisits(es, BufferOf(key), |es|));
      case Array(items) =>
        for i := 0 to |items|
          invariant out == stdout + Render(ArrayVisits(items, key, i))
        {
          var keyBuff := match key case Some(arr) => arr case None => [];
          var formattedIdx := NatToString(i);
          keyBuff := keyBuff + [formattedIdx];
          ArrayStep(items, key, i, stdout, out);
          out := AppsettingsJsonToEnvRecursive(items[i], key, out);
        }
        assert Lines(v, key) == Render(ArrayVisits(items, key, |items|));
      case _ =>
        if key.Some? {
          var name := CapitalizeAndJoin(key.value);
          out := out + [Line(name, v)];
          assert Lines(v, key) == Render([Visit(key.value, v)]) == [Line(name, v)];
        } else {
          assert Lines(v, key) == Render([]);
        }
    }
  }

  /** The program's entry point runs the traversal from the root with no key. */
  method Run(root: Json) returns (out: seq<Line>)
    ensures out == Render(Visits(root, None))
  {
    out := AppsettingsJsonToEnvRecursive(root, None, []);
  }

  // ---------------------------------------------------------------------
  // Properties of the traversal

  /** A primitive leaf prints exactly one line when it has a key, named by
      that key, and nothing when it has none: a bare root leaf prints
      nothing. */
  lemma LeafEmission(v: Json, key: Option<seq<string>>)
    requires IsLeaf(v)
    ensures key.None? ==> Lines(v, key) == []
    ensures key.Some? ==> Lines(v, key) == [Line(Join(key.value), v)]
  {
  }

  /** Within one object the buffer is only appended to: the path of an
      earlier entry is a proper prefix of the path of every later one, and
      the path of entry j is j + 1 segments longer than the incoming one. */
  lemma EntryPathsGrow(es: seq<Entry>, base: seq<string>, j: nat, k: nat)
    requires j < k < |es|
    ensures |EntryPath(es, base, j)| == |base| + j + 1
    ensures EntryPath(es, base, j) < EntryPath(es, base, k)
  {
    assert EntryPath(es, base, k)[..|base| + j + 1] == EntryPath(es, base, j);
  }

  /** An object whose values are all leaves prints, for entry j, its value
      under the incoming path followed by the keys of entries 0 to j. */
  lemma {:induction false} ObjectOfLeaves(es: seq<Entry>, key: Option<seq<string>>)
    requires forall j :: 0 <= j < |es| ==> IsLeaf(es[j].value)
    ensures Visits(Object(es), key)
         == seq(|es|, j requires 0 <= j < |es| => Visit(EntryPath(es, BufferOf(key), j), es[j].value))
  {
    ObjectOfLeavesUpTo(es, BufferOf(key), |es|);
  }

  lemma {:induction false} ObjectOfLeavesUpTo(es: seq<Entry>, base: seq<string>, n: nat)
    requires n <= |es|
    requires forall j :: 0 <= j < |es| ==> IsLeaf(es[j].value)
    ensures ObjectVisits(es, base, n)
         == seq(n, j requires 0 <= j < n => Visit(EntryPath(es, base, j), es[j].value))
    decreases n
  {
    if n > 0 {
      ObjectOfLeavesUpTo(es, base, n - 1);
    }
  }

  /** An array passes its own key to every item, in index order: an array
      of leaves under `p` prints every item under the one name of `p`. */
  lemma {:induction false} ArrayOfLeavesShareName(items: seq<Json>, p: seq<string>)
    requires forall i :: 0 <= i < |items| ==> IsLeaf(items[i])
    ensures Lines(Array(items), Some(p))
         == seq(|items|, i requires 0 <= i < |items| => Line(Join(p), items[i]))
  {
    ArrayOfLeavesUpTo(items, Some(p), |items|);
  }

  lemma {:induction false} ArrayOfLeavesUpTo(items: seq<Json>, key: Option<seq<string>>, n: nat)
    requires n <= |items| && key.Some?
    requires forall i :: 0 <= i < |items| ==> IsLeaf(items[i])
    ensures ArrayVisits(items, key, n)
         == seq(n, i requires 0 <= i < n => Visit(key.value, items[i]))
    decreases n
  {
    if n > 0 {
      ArrayOfLeavesUpTo(items, key, n - 1);
    }
  }

  /** Every leaf is reached with a path that extends the key it was entered
      with. */
  lemma {:induction false} VisitPathsExtendKey(v: Json, p: seq<string>)
    ensures forall i :: 0 <= i < |Visits(v, Some(p))| ==> p <= Visits(v, Some(p))[i].path
    decreases v
  {
    match v
    case Object(es) => ObjectPathsExtend(es, p, |es|);
    case Array(items) => ArrayPathsExtend(items, p, |items|);
    case _ =>
  }

  lemma {:induction false} ObjectPathsExtend(es: seq<Entry>, base: seq<string>, n: nat)
    requires n <= |es|
    ensures forall i :: 0 <= i < |ObjectVisits(es, base, n)| ==>
              |base| < |ObjectVisits(es, base, n)[i].path| && base <= ObjectVisits(es, base, n)[i].path
    decreases es, n
  {
    if n > 0 {
      ObjectPathsExtend(es, base, n - 1);
      var q := EntryPath(es, base, n - 1);
      VisitPathsExtendKey(es[n - 1].value, q);
      assert base <= q;
    }
  }

  lemma {:induction false} ArrayPathsExtend(items: seq<Json>, p: seq<string>, n: nat)
    requires n <= |items|
    ensures forall i :: 0 <= i < |ArrayVisits(items, Some(p), n)| ==> p <= ArrayVisits(items, Some(p), n)[i].path
    decreases items, n
  {
    if n > 0 {
      ArrayPathsExtend(items, p, n - 1);
      VisitPathsExtendKey(items[n - 1], p);
    }
  }

  /** Started from no key, or from a non-empty one, the traversal never
      reaches a leaf with an empty path: every printed name is made of at
      least one segment. */
  lemma {:induction false} VisitPathsNonEmpty(v: Json, key: Option<seq<string>>)
    requires key != Some([])
    ensures forall i :: 0 <= i < |Visits(v, key)| ==> |Visits(v, key)[i].path| >= 1
    decreases v
  {
    match v
    case Object(es) => ObjectPathsExtend(es, BufferOf(key), |es|);
    case Array(items) => ArrayPathsNonEmpty(items, key, |items|);
    case _ =>
  }

  lemma {:induction false} ArrayPathsNonEmpty(items: seq<Json>, key: Option<seq<string>>, n: nat)
    requires n <= |items| && key != Some([])
    ensures forall i :: 0 <= i < |ArrayVisits(items, key, n)| ==> |ArrayVisits(items, key, n)[i].path| >= 1
    decreases items, n
  {
    if n > 0 {
      ArrayPathsNonEmpty(items, key, n - 1);
      VisitPathsNonEmpty(items[n - 1], key);
    }
  }

  /** The leaves printed are, in order, all leaves of `v` in depth-first
      order when a key is given, and otherwise those with at least one
      object ancestor. */
  lemma {:induction false} LeafOrder(v: Json, key: Option<seq<string>>)
    ensures LeafValues(Visits(v, key)) == if key.Some? then Leaves(v) else KeyedLeaves(v)
    decreases v
  {
    match v
    case Object(es) => ObjectLeafOrder(es, BufferOf(key), |es|);
    case Array(items) => ArrayLeafOrder(items, key, |items|);
    case _ =>
  }

  lemma {:induction false} ObjectLeafOrder(es: seq<Entry>, base: seq<string>, n: nat)
    requires n <= |es|
    ensures LeafValues(ObjectVisits(es, base, n)) == EntryLeaves(es, n)
    decreases es, n
  {
    if n > 0 {
      var prev := ObjectVisits(es, base, n - 1);
      var block := Visits(es[n - 1].value, Some(EntryPath(es, base, n - 1)));
      ObjectLeafOrder(es, base, n - 1);
      LeafOrder(es[n - 1].value, Some(EntryPath(es, base, n - 1)));
      assert ObjectVisits(es, base, n) == prev + block;
      LeafValuesAppend(prev, block);
      assert EntryLeaves(es, n) == EntryLeaves(es, n - 1) + Leaves(es[n - 1].value);
    }
  }

  lemma {:induction false} ArrayLeafOrder(items: seq<Json>, key: Option<seq<string>>, n: nat)
    requires n <= |items|
    ensures key.Some? ==> LeafValues(ArrayVisits(items, key, n)) == ItemLeaves(items, n)
    ensures key.None? ==> LeafValues(ArrayVisits(items, key, n)) == ItemKeyedLeaves(items, n)
    decreases items, n
  {
    if n > 0 {
      var prev := ArrayVisits(items, key, n - 1);
      var block := Visits(items[n - 1], key);
      ArrayLeafOrder(items, key, n - 1);
      LeafOrder(items[n - 1], key);
      assert ArrayVisits(items, key, n) == prev + block;
      LeafValuesAppend(prev, block);
      if key.Some? {
        assert ItemLeaves(items, n) == ItemLeaves(items, n - 1) + Leaves(items[n - 1]);
      } else {
        assert ItemKeyedLeaves(items, n) == ItemKeyedLeaves(items, n - 1) + KeyedLeaves(items[n - 1]);
      }
    }
  }

  /** From the root, one line is printed per leaf that has an object above it. */
  lemma LineCount(root: Json)
    ensures |Lines(root, None)| == |KeyedLeaves(root)|
  {
    LeafOrder(root, None);
  }

  /** A root with no object anywhere in it — a bare leaf, or arrays of
      arrays of leaves — prints nothing. */
  lemma NoObjectPrintsNothing(root: Json)
    requires NoObject(root)
    ensures Lines(root, None) == []
  {
    LeafOrder(root, None);
    KeyedLeavesOfNoObject(root);
  }

  /** No printed name contains an ASCII lower-case letter. */
  lemma NamesHaveNoLower(v: Json, key: Option<seq<string>>)
    ensures forall i, c :: 0 <= i < |Lines(v, key)| && 0 <= c < |Lines(v, key)[i].name| ==>
              !IsLower(Lines(v, key)[i].name[c])
  {
    var vs := Visits(v, key);
    forall i | 0 <= i < |vs|
      ensures forall c :: 0 <= c < |Lines(v, key)[i].name| ==> !IsLower(Lines(v, key)[i].name[c])
    {
      JoinHasNoLower(vs[i].path);
    }
  }

  // ---------------------------------------------------------------------
  // Worked inputs

  function Names(ls: seq<Line>): (ns: seq<string>)
    ensures |ns| == |ls|
  {
    seq(|ls|, i requires 0 <= i < |ls| => ls[i].name)
  }

  lemma NestedSiblingsVisits()
    ensures Visits(Object([Entry("A", Object([Entry("B", Str("x")), Entry("C", Num("1"))]))]), None)
         == [Visit(["A", "B"], Str("x")), Visit(["A", "B", "C"], Num("1"))]
  {
    var inner := [Entry("B", Str("x")), Entry("C", Num("1"))];
    var outer := [Entry("A", Object(inner))];
    assert EntryPath(outer, [], 0) == ["A"] by {
      assert Keys(outer[..1]) == ["A"];
    }
    assert EntryPath(inner, ["A"], 0) == ["A", "B"] by {
      assert Keys(inner[..1]) == ["B"];
    }
    assert EntryPath(inner, ["A"], 1) == ["A", "B", "C"] by {
      assert Keys(inner[..2]) == ["B", "C"];
    }
    assert ObjectVisits(inner, ["A"], 1) == [Visit(["A", "B"], Str("x"))];
    assert ObjectVisits(inner, ["A"], 2) == [Visit(["A", "B"], Str("x")), Visit(["A", "B", "C"], Num("1"))];
    assert ObjectVisits(outer, [], 1) == Visits(Object(inner), Some(["A"]));
  }

  /** `{"A":{"B":"x","C":1}}`: the second sibling's name still carries the
      first sibling's key. */
  lemma NestedSiblingsAsWritten()
    ensures Names(Lines(Object([Entry("A", Object([Entry("B", Str("x")), Entry("C", Num("1"))]))]), None))
         == ["A__B", "A__B__C"]
  {
    NestedSiblingsVisits();
    assert Join(["A", "B"]) == "A__B" by {
      JoinShort("A");
      JoinSnoc(["A"], "B");
      assert ["A"] + ["B"] == ["A", "B"];
      assert Upper("A") == "A" && Upper("B") == "B";
    }
    assert Join(["A", "B", "C"]) == "A__B__C" by {
      JoinSnoc(["A", "B"], "C");
      assert ["A", "B"] + ["C"] == ["A", "B", "C"];
      assert Upper("C") == "C";
    }
  }

  lemma RootSiblingsVisits()
    ensures Visits(Object([Entry("Flag", Bool(true)), Entry("Missing", Null)]), None)
         == [Visit(["Flag"], Bool(true)), Visit(["Flag", "Missing"], Null)]
  {
    var es := [Entry("Flag", Bool(true)), Entry("Missing", Null)];
    assert EntryPath(es, [], 0) == ["Flag"] by {
      assert Keys(es[..1]) == ["Flag"];
    }
    assert EntryPath(es, [], 1) == ["Flag", "Missing"] by {
      assert Keys(es[..2]) == ["Flag", "Missing"];
    }
    ObjectOfLeaves(es, None);
  }

  /** `{"Flag":true,"Missing":null}`: the same happens at the root. */
  lemma RootSiblingsAsWritten()
    ensures Names(Lines(Object([Entry("Flag", Bool(true)), Entry("Missing", Null)]), None))
         == ["FLAG", "FLAG__MISSING"]
  {
    RootSiblingsVisits();
    assert Join(["Flag"]) == "FLAG" by {
      JoinShort("Flag");
      assert Upper("Flag") == "FLAG";
    }
    assert Join(["Flag", "Missing"]) == "FLAG__MISSING" by {
      JoinSnoc(["Flag"], "Missing");
      assert ["Flag"] + ["Missing"] == ["Flag", "Missing"];
      assert Upper("Missing") == "MISSING";
    }
  }

  /** `{"List":["a","b"]}`: both items are printed under the array's own
      name, with no index segment. */
  lemma ArrayItemsAsWritten()
    ensures Names(Lines(Object([Entry("List", Array([Str("a"), Str("b")]))]), None)) == ["LIST", "LIST"]
  {
    var items := [Str("a"), Str("b")];
    assert Keys([Entry("List", Array(items))][..1]) == ["List"];
    ArrayOfLeavesShareName(items, ["List"]);
    var es := [Entry("List", Array(items))];
    assert EntryPath(es, [], 0) == ["List"];
    assert ObjectVisits(es, [], 1) == Visits(Array(items), Some(["List"]));
    assert Lines(Object(es), None) == Lines(Array(items), Some(["List"]));
    JoinShort("List");
    assert Upper("List") == "LIST";
  }

  /** `{"Empty":{}}`: an empty object prints nothing. */
  lemma EmptyObjectPrintsNothing()
    ensures Lines(Object([Entry("Empty", Object([]))]), None) == []
  {
  }
}
