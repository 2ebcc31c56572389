/** `capitalize_and_join`: the environment-variable name built from a key
    path — every segment upper-cased in ASCII, segments separated by `__`. */
module Naming {
  import opened Decimal

  predicate IsLower(c: char) {
    'a' <= c <= 'z'
  }

  /** `char::to_ascii_uppercase`: `a`-`z` become `A`-`Z`, every other
      character is left as it is. */
  function UpperChar(c: char): (u: char)
    ensures IsLower(c) ==> u as int == c as int - 32 && 'A' <= u <= 'Z'
    ensures !IsLower(c) ==> u == c
  {
    if IsLower(c) then (c as int - 32) as char else c
  }

  /** `str::to_ascii_uppercase`, character by character. */
  function Upper(s: string): (r: string)
    ensures |r| == |s|
    ensures forall i :: 0 <= i < |s| ==> r[i] == UpperChar(s[i])
  {
    seq(|s|, i requires 0 <= i < |s| => UpperChar(s[i]))
  }

  /** The name of a key path: the first segment, then `__` and the next
      segment for each later one, all upper-cased. */
  function Join(segs: seq<string>): string {
    if segs == [] then "" else Upper(segs[0]) + Separated(segs[1..])
  }

  /** Each segment preceded by `__`, upper-cased. */
  function Separated(segs: seq<string>): string
    decreases |segs|
  {
    if segs == [] then "" else "__" + (Upper(segs[0]) + Separated(segs[1..]))
  }

  /** The same path joined with `__` but without changing case. */
  function PlainJoin(segs: seq<string>): string
    decreases |segs|
  {
    if segs == [] then ""
    else if |segs| == 1 then segs[0]
    else segs[0] + "__" + PlainJoin(segs[1..])
  }

  function SumLengths(segs: seq<string>): nat
    decreases |segs|
  {
    if segs == [] then 0 else |segs[0]| + SumLengths(segs[1..])
  }

  /** The fold of `capitalize_and_join`: start from the empty string and,
      for each segment, push `__` unless it is the first, then push the
      segment upper-cased. */
  method CapitalizeAndJoin(arr: seq<string>) returns (acc: string)
    ensures acc == Join(arr)
  {
    acc := "";
    for i := 0 to |arr|
      invariant acc == Join(arr[..i])
    {
      if i > 0 {
        acc := acc + "__";
      }
      acc := acc + Upper(arr[i]);
      assert arr[..i + 1] == arr[..i] + [arr[i]];
      if i > 0 {
        JoinSnoc(arr[..i], arr[i]);
      }
    }
    assert arr[..|arr|] == arr;
  }

  /** An empty path gives the empty name; a one-segment path gives that
      segment upper-cased, with no separator. */
  lemma JoinShort(s: string)
    ensures Join([]) == ""
    ensures Join([s]) == Upper(s)
  {
    assert [s][1..] == [];
  }

  lemma {:induction false} SeparatedSnoc(segs: seq<string>, t: string)
    ensures Separated(segs + [t]) == Separated(segs) + "__" + Upper(t)
    decreases |segs|
  {
    if segs == [] {
      assert [t][1..] == [];
    } else {
      assert (segs + [t])[1..] == segs[1..] + [t];
      SeparatedSnoc(segs[1..], t);
    }
  }

  /** Appending a segment to a non-empty path appends `__` and that segment
      upper-cased to its name. */
  lemma JoinSnoc(segs: seq<string>, t: string)
    requires segs != []
    ensures Join(segs + [t]) == Join(segs) + "__" + Upper(t)
  {
    assert (segs + [t])[1..] == segs[1..] + [t];
    SeparatedSnoc(segs[1..], t);
  }

  lemma {:induction false} SeparatedLength(segs: seq<string>)
    ensures |Separated(segs)| == SumLengths(segs) + 2 * |segs|
    decreases |segs|
  {
    if segs != [] {
      SeparatedLength(segs[1..]);
    }
  }

  /** A name is as long as its segments together plus two characters for
      each of the `|segs| - 1` separators. */
  lemma JoinLength(segs: seq<string>)
    requires segs != []
    ensures |Join(segs)| == SumLengths(segs) + 2 * (|segs| - 1)
  {
    SeparatedLength(segs[1..]);
  }

  lemma UpperConcat(a: string, b: string)
    ensures Upper(a + b) == Upper(a) + Upper(b)
  {
    assert forall i :: 0 <= i < |a + b| ==> Upper(a + b)[i] == (Upper(a) + Upper(b))[i];
  }

  lemma {:induction false} SeparatedIsUpperPlain(segs: seq<string>)
    requires segs != []
    ensures Upper(segs[0]) + Separated(segs[1..]) == Upper(PlainJoin(segs))
    decreases |segs|
  {
    if |segs| == 1 {
      assert segs[1..] == [];
    } else {
      var rest := segs[1..];
      SeparatedIsUpperPlain(rest);
      assert Upper("__") == "__";
      calc {
        Upper(segs[0]) + Separated(rest);
        Upper(segs[0]) + ("__" + (Upper(rest[0]) + Separated(rest[1..])));
        { assert rest[1..] == segs[2..]; }
        Upper(segs[0]) + "__" + Upper(PlainJoin(rest));
        { UpperConcat(segs[0], "__"); }
        Upper(segs[0] + "__") + Upper(PlainJoin(rest));
        { UpperConcat(segs[0] + "__", PlainJoin(rest)); }
        Upper(segs[0] + "__" + PlainJoin(rest));
      }
    }
  }

  /** Upper-casing each segment and then joining gives the same name as
      joining and then upper-casing: so the separator is `__` and every
      character of every segment other than `a`-`z` is kept as it is. */
  lemma JoinIsUpperOfPlainJoin(segs: seq<string>)
    ensures Join(segs) == Upper(PlainJoin(segs))
  {
    if segs != [] {
      SeparatedIsUpperPlain(segs);
    }
  }

  /** No name contains an ASCII lower-case letter. */
  lemma JoinHasNoLower(segs: seq<string>)
    ensures forall i :: 0 <= i < |Join(segs)| ==> !IsLower(Join(segs)[i])
  {
    JoinIsUpperOfPlainJoin(segs);
  }

  /** Index segments are digits, which upper-casing leaves alone. */
  lemma UpperOfDigits(s: string)
    requires forall i :: 0 <= i < |s| ==> IsDigit(s[i])
    ensures Upper(s) == s
  {
  }

  /** Splitting a name back into segments at each `__`, leftmost first. */
  function Split(s: string): (r: seq<string>)
    ensures |r| >= 1
    decreases |s|
  {
    if |s| >= 2 && s[0] == '_' && s[1] == '_' then [""] + Split(s[2..])
    else if s == [] then [""]
    else var t := Split(s[1..]); [[s[0]] + t[0]] + t[1..]
  }

  predicate NoUnderscore(s: string) {
    forall i :: 0 <= i < |s| ==> s[i] != '_'
  }

  function UpperAll(segs: seq<string>): (r: seq<string>)
    ensures |r| == |segs|
    ensures forall i :: 0 <= i < |segs| ==> r[i] == Upper(segs[i])
  {
    seq(|segs|, i requires 0 <= i < |segs| => Upper(segs[i]))
  }

  lemma {:induction false} SplitWord(w: string)
    requires NoUnderscore(w)
    ensures Split(w) == [w]
    decreases |w|
  {
    if w != [] {
      SplitWord(w[1..]);
      assert [w[0]] + w[1..] == w;
    }
  }

  lemma {:induction false} SplitWordSep(w: string, rest: string)
    requires NoUnderscore(w)
    ensures Split(w + ("__" + rest)) == [w] + Split(rest)
    decreases |w|
  {
    var s := w + ("__" + rest);
    if w == [] {
      assert s[2..] == rest;
    } else {
      assert s[1..] == w[1..] + ("__" + rest);
      SplitWordSep(w[1..], rest);
      assert [s[0]] + w[1..] == w;
    }
  }

  lemma {:induction false} SplitSeparated(w: string, ts: seq<string>)
    requires NoUnderscore(w)
    requires forall i :: 0 <= i < |ts| ==> NoUnderscore(ts[i])
    ensures Split(w + Separated(ts)) == [w] + UpperAll(ts)
    decreases |ts|
  {
    if ts == [] {
      assert w + Separated(ts) == w;
      SplitWord(w);
    } else {
      var u := Upper(ts[0]);
      assert NoUnderscore(u);
      SplitWordSep(w, u + Separated(ts[1..]));
      SplitSeparated(u, ts[1..]);
      assert [u] + UpperAll(ts[1..]) == UpperAll(ts);
    }
  }

  /** When no segment contains `_`, the name determines the upper-cased
      path: splitting it at `__` gives the segments back, upper-cased. */
  lemma SplitJoin(segs: seq<string>)
    requires segs != []
    requires forall i :: 0 <= i < |segs| ==> NoUnderscore(segs[i])
    ensures Split(Join(segs)) == UpperAll(segs)
  {
    assert NoUnderscore(Upper(segs[0]));
    SplitSeparated(Upper(segs[0]), segs[1..]);
    assert [Upper(segs[0])] + UpperAll(segs[1..]) == UpperAll(segs);
  }

  /** Without that restriction two paths can share a name: `A_` then `B`,
      and `A` then `_B`, both give `A___B`. */
  lemma UnderscoreCollision()
    ensures Join(["A_", "B"]) == Join(["A", "_B"]) == "A___B"
  {
    JoinSnoc(["A_"], "B");
    JoinSnoc(["A"], "_B");
    JoinShort("A_");
    JoinShort("A");
  }
}
