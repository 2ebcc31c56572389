# appsets2env flattener, modelled in Dafny

`appsets2env` reads an `appsettings.json` file and prints one
`NAME=VALUE` line per primitive value (string, number, boolean, null), so
that the configuration can be passed as environment variables. The name
is the key path to the value, each segment upper-cased in ASCII, joined
with `__`.

This project models the two functions that do the work:

- `capitalize_and_join` (module `Naming`): the name for a key path. It is
  a method with a loop that folds over the segments and pushes `__` and the
  upper-cased segment onto an accumulator. It is proved equal to a
  reference definition, `Join`. The lemmas about `Join` give its shape:
  the empty and one-segment cases, the step for one more segment, its
  length, no lower-case letters, the same result as upper-casing after
  joining, and recovery of the upper-cased segments by splitting at `__`
  when no segment contains `_`.
- `appsettings_json_to_env_recursive` (module `Flatten`): the recursive
  traversal of the parsed tree. It is a method with a `for` loop per
  object and per array, a key buffer that the loops grow, and an output
  sequence that printing appends to. It is proved to print `Lines(v, key)`.
  That function renders `Visits(v, key)`, the leaves reached together with
  the key path each one is reached with. `Visits` follows the code
  exactly, including its two defects:
  - The object loop builds the buffer once and pushes every key onto it,
    so entry j of an object is visited with the incoming path plus the
    keys of entries 0 to j.
  - The array loop pushes the index onto a fresh buffer and then recurses
    with the original key, so array items get no index segment.

  The lemmas state what this traversal does. A keyed leaf prints one
  line and an unkeyed one prints nothing. Leaves come out in depth-first
  order; from the root these are exactly the leaves that have an object
  above them, so there is one line per such leaf. Paths only grow, and
  from the root they are never empty. Names contain no lower-case
  letters. Worked inputs show the defects.
- `CorrectedFlatten` is the traversal that the code evidently intends: a
  fresh buffer per object entry, and the index-extended buffer passed to
  array items. It is proved to reach every leaf strictly below the root in
  depth-first order; below a key it reaches the same leaves as the
  as-written traversal. When each object's keys are distinct, as in a
  JSON map, every leaf gets its own path. Under a non-empty path, an
  array of leaves gets names ending in `__0`, `__1`, and so on. The two traversals agree on trees where no object has two entries
  and every array is empty. The as-written model is the primary one; the
  corrected one is separate and is used only to state the findings below.

Array indices are rendered by `Decimal.NatToString`, the model of
`usize::to_string`. It is proved to parse back to the index, so distinct
indices give distinct segments.

Printing is modelled as appending a `Line(name, value)` to a sequence
that each call takes and returns. `Run` is the call made by `main` on the
parsed root with no key.

A flattener of this kind would be expected to keep sibling paths apart,
to add an index segment per array item and to print strings bare. The
code does neither of the first two; see "## Findings". For the third, the
code prints values with `serde_json::Value`'s `Display`, and this model
keeps the leaf value itself in each printed line (see "## Left out").

## Model

| member | source | states |
|---|---|---|
| `Naming.UpperChar` | src/main.rs:62 | `to_ascii_uppercase` on one character: `a`-`z` move down by 32 to `A`-`Z`, every other character is unchanged |
| `Naming.Upper` | src/main.rs:62 | `str::to_ascii_uppercase`: the string upper-cased character by character, its length kept |
| `Naming.CapitalizeAndJoin` | src/main.rs:55-65 | the fold (push `__` before every segment but the first, then the upper-cased segment) yields exactly `Join(arr)` |
| `Naming.JoinShort` | src/main.rs:55-65 | an empty path gives `""`; a one-segment path gives that segment upper-cased, with no separator |
| `Naming.JoinSnoc` | src/main.rs:58-63 | for a non-empty path, one more segment appends `__` and that segment upper-cased |
| `Naming.JoinLength` | src/main.rs:58-63 | a name is as long as its segments together plus 2·(n−1), so there is no separator before the first or after the last segment |
| `Naming.JoinIsUpperOfPlainJoin` | src/main.rs:59-62 | upper-casing per segment and then joining equals joining with `__` and then upper-casing, so every character other than `a`-`z` is kept |
| `Naming.JoinHasNoLower` | src/main.rs:62 | no name contains an ASCII lower-case letter |
| `Naming.SplitJoin` | src/main.rs:55-65 | when no segment contains `_`, splitting a name at each `__` gives back the upper-cased segments (the inverse of the join) |
| `Naming.UnderscoreCollision` | src/main.rs:55-65 | without that restriction two different paths can share a name: `["A_","B"]` and `["A","_B"]` both give `A___B` |
| `Decimal.NatToString` | src/main.rs:41 | `i.to_string()` is a non-empty run of decimal digits, with a leading `0` only for zero |
| `Decimal.ParseNatToString` | src/main.rs:41 | reading the decimal text back gives the index |
| `Decimal.NatToStringInjective` | src/main.rs:41 | distinct indices give distinct texts |
| `Flatten.AppsettingsJsonToEnvRecursive` | src/main.rs:22-53 | the traversal, with its loops and key buffers, appends exactly `Lines(v, key)` to the output |
| `Flatten.Run` | src/main.rs:18 | the program prints `Lines(root, None)` for the parsed root |
| `Flatten.LeafEmission` | src/main.rs:46-50 | a primitive leaf prints exactly one line, named by its key path, when it has a key, and nothing when it has none |
| `Flatten.EntryPathsGrow` | src/main.rs:25-33 | in one object the buffer is only appended to: entry j's path is the incoming path plus j+1 keys, and is a proper prefix of every later entry's path |
| `Flatten.ObjectOfLeaves` | src/main.rs:25-33 | an object of leaves prints entry j's value under the incoming path plus the keys of entries 0..j, in entry order |
| `Flatten.ArrayOfLeavesShareName` | src/main.rs:35-44 | an array of leaves under a key prints every item, in index order, under that key's one name |
| `Flatten.VisitPathsExtendKey` | src/main.rs:22-53 | every leaf is reached with a path that extends the key the call was entered with |
| `Flatten.VisitPathsNonEmpty` | src/main.rs:25-50 | started from no key or from a non-empty one, no leaf is reached with an empty path, so every name has at least one segment |
| `Flatten.LeafOrder` | src/main.rs:22-53 | the printed leaves are, in depth-first order (entries in order, items by index), all leaves when a key is given and otherwise those with an object ancestor |
| `Flatten.LineCount` | src/main.rs:22-53 | from the root, the number of lines equals the number of leaves with at least one object ancestor |
| `Flatten.NoObjectPrintsNothing` | src/main.rs:35-50 | a root with no object in it, such as a bare leaf or an array of leaves, prints nothing |
| `Flatten.NamesHaveNoLower` | src/main.rs:49-62 | no printed name contains an ASCII lower-case letter |
| `Flatten.NestedSiblingsAsWritten` | src/main.rs:25-33 | `{"A":{"B":"x","C":1}}` prints names `A__B` then `A__B__C` |
| `Flatten.RootSiblingsAsWritten` | src/main.rs:25-33 | `{"Flag":true,"Missing":null}` prints names `FLAG` then `FLAG__MISSING` |
| `Flatten.ArrayItemsAsWritten` | src/main.rs:36-43 | `{"List":["a","b"]}` prints the name `LIST` twice |
| `Flatten.EmptyObjectPrintsNothing` | src/main.rs:29-33 | `{"Empty":{}}` prints nothing |
| `CorrectedFlatten.FixedAppsettingsJsonToEnvRecursive` | src/main.rs:22-53 | the corrected traversal, with a fresh buffer per entry and the index passed to items, appends exactly `FixedLines(v, key)` |
| `CorrectedFlatten.FixedLeafOrder` | src/main.rs:22-53 | the corrected traversal prints every leaf strictly below the root, in depth-first order |
| `CorrectedFlatten.SameLeavesAsWritten` | src/main.rs:22-53 | below a key, both traversals print the same leaves in the same order; only the names differ |
| `CorrectedFlatten.RootArrayDiffers` | src/main.rs:35-44 | from the root the traversals differ: a root array `["a"]` prints nothing as written (no key is ever built) but `0="a"` when corrected |
| `CorrectedFlatten.FixedPathsDistinct` | src/main.rs:25-43 | when every object's keys are distinct, no two leaves get the same path |
| `CorrectedFlatten.FixedArrayOfLeaves` | src/main.rs:36-43 | an array of leaves under a non-empty path names item i by the array's name, `__` and `i` |
| `CorrectedFlatten.AgreeWhenUnbranched` | src/main.rs:25-43 | where no object has two entries and every array is empty, the as-written and corrected traversals agree |
| `CorrectedFlatten.NestedSiblingsFixed` | src/main.rs:25-33 | corrected, `{"A":{"B":"x","C":1}}` gives `A__B` and `A__C` |
| `CorrectedFlatten.RootSiblingsFixed` | src/main.rs:25-33 | corrected, `{"Flag":true,"Missing":null}` gives `FLAG` and `MISSING` |
| `CorrectedFlatten.ArrayItemsFixed` | src/main.rs:36-43 | corrected, `{"List":["a","b"]}` gives `LIST__0` and `LIST__1` |

## Findings

| source | as written | input that shows it | evidently intended | confidence | as-written member | corrected member |
|---|---|---|---|---|---|---|
| src/main.rs:25-33 | the object's key buffer is built once and each key is pushed without being popped, so later siblings inherit earlier siblings' keys | `{"A":{"B":"x","C":1}}` names `A__B`, `A__B__C`; `{"Flag":true,"Missing":null}` names `FLAG`, `FLAG__MISSING` | each entry under the incoming path plus its own key only: `A__B`, `A__C` and `FLAG`, `MISSING` | high; not executed | `Flatten.NestedSiblingsAsWritten` | `CorrectedFlatten.NestedSiblingsFixed` |
| src/main.rs:37-43 | the index-extended buffer is built and then dropped; the recursion gets the original key, so all items of an array share one name | `{"List":["a","b"]}` names `LIST` twice | each item under the incoming path plus its index: `LIST__0`, `LIST__1` | high; not executed | `Flatten.ArrayItemsAsWritten` | `CorrectedFlatten.FixedArrayOfLeaves` |

## Left out

- Command-line parsing with `clap` (src/main.rs:6-12, 15): library glue.
- Reading the file and the `anyhow` error context (src/main.rs:16): I/O. The model starts from the parsed tree.
- Parsing JSON text with `serde_json::from_str` (src/main.rs:17): a foreign parser. Its error path ends the program before any traversal, so it has no effect on the traversal.
- Writing to standard output (src/main.rs:49): modelled as appending a `Line` to the output sequence each call takes and returns.
- Rendering the value after `=` (src/main.rs:49): this is `serde_json::Value`'s `Display`, which is JSON serialisation (strings quoted and escaped, float formatting for numbers). The model keeps the leaf value itself in each line; a number keeps its text.
- The iteration order of `serde_json::Map`, which depends on a crate feature not visible here (sorted keys, or insertion order): object entries are an ordered sequence and are traversed in that order.
- Call-stack exhaustion on very deep trees: the model's recursion is unbounded.
