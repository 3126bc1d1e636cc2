/** The snapshot diff of backend/src/lib/diff.ts.

    `Diff` is the specification: one `KeyDelta` per key of `to`, in key order,
    followed by the `missing` paths of the keys of `from` that `to` lacks.
    `DiffJson` is the source's loop-and-push implementation, proved equal to it. */
module Diff {
  import opened Json

  /** The three path lists of a diff (`new` is a reserved word, hence `added`). */
  datatype Delta = Delta(added: seq<string>, modified: seq<string>, missing: seq<string>)

  const Empty := Delta([], [], [])

  /** Componentwise concatenation: appending a child's lists onto the parent's. */
  function Then(d: Delta, e: Delta): Delta {
    Delta(d.added + e.added, d.modified + e.modified, d.missing + e.missing)
  }

  /** `prefix ? `${prefix}.${k}` : k` (the empty prefix is falsy). */
  function Path(prefix: string, k: string): string {
    if prefix == "" then k else prefix + "." + k
  }

  function Diff(from: Json, to: Json, prefix: string): Delta
    decreases from, 2
  {
    var d := ToKeysDelta(from, to, |Keys(to)|, prefix);
    Delta(d.added, d.modified, d.missing + MissingPaths(from, to, |Keys(from)|, prefix))
  }

  /** What the first `n` keys of `to` contribute. */
  function ToKeysDelta(from: Json, to: Json, n: nat, prefix: string): Delta
    requires n <= |Keys(to)|
    decreases from, 1, n
  {
    if n == 0 then Empty
    else Then(ToKeysDelta(from, to, n - 1, prefix), KeyDelta(from, to, Keys(to)[n - 1], prefix))
  }

  /** What one key of `to` contributes: `new` when `from` lacks it, the child
      diff when both values are objects, otherwise `modified` exactly when the
      values differ (arrays included, compared whole). */
  function KeyDelta(from: Json, to: Json, k: string, prefix: string): Delta
    requires k in Keys(to)
    decreases from, 0
  {
    var path := Path(prefix, k);
    if k !in Keys(from) then Delta([path], [], [])
    else
      var a := from.fields[FieldIndex(from.fields, k)].value;
      var b := Get(to, k);
      if IsObject(a) && IsObject(b) then Diff(a, b, path)
      else if a != b then Delta([], [path], [])
      else Empty
  }

  /** Paths of the first `n` keys of `from` that `to` lacks, in `from`'s key order. */
  function MissingPaths(from: Json, to: Json, n: nat, prefix: string): seq<string>
    requires n <= |Keys(from)|
  {
    if n == 0 then []
    else
      var k := Keys(from)[n - 1];
      MissingPaths(from, to, n - 1, prefix) + (if k !in Keys(to) then [Path(prefix, k)] else [])
  }

  /** `diffJson(fromObj, toObj, prefix)`: two loops that push onto three lists. */
  method DiffJson(fromObj: Json, toObj: Json, prefix: string) returns (out: Delta)
    ensures out == Diff(fromObj, toObj, prefix)
    decreases fromObj, 1
  {
    var added: seq<string> := [];
    var modified: seq<string> := [];
    var missing: seq<string> := [];
    var toKeys := Keys(toObj);

    var i := 0;
    while i < |toKeys|
      invariant 0 <= i <= |toKeys|
      invariant Delta(added, modified, missing) == ToKeysDelta(fromObj, toObj, i, prefix)
    {
      var d := KeyStep(fromObj, toObj, toKeys[i], prefix);
      added, modified, missing := added + d.added, modified + d.modified, missing + d.missing;
      i := i + 1;
    }

    missing := PushMissing(fromObj, toObj, prefix, missing);
    out := Delta(added, modified, missing);
  }

  /** The second loop: push the path of every key of `from` that `to` lacks. */
  method PushMissing(fromObj: Json, toObj: Json, prefix: string, missing0: seq<string>)
    returns (missing: seq<string>)
    ensures missing == missing0 + MissingPaths(fromObj, toObj, |Keys(fromObj)|, prefix)
  {
    var fromKeys := Keys(fromObj);
    var toKeys := Keys(toObj);
    missing := missing0;
    var j := 0;
    while j < |fromKeys|
      invariant 0 <= j <= |fromKeys|
      invariant missing == missing0 + MissingPaths(fromObj, toObj, j, prefix)
    {
      var k := fromKeys[j];
      if k !in toKeys {
        missing := missing + [Path(prefix, k)];
      }
      j := j + 1;
    }
  }

  /** One pass of the first loop's body: what key `k` of `to` pushes. */
  method KeyStep(fromObj: Json, toObj: Json, k: string, prefix: string) returns (d: Delta)
    requires k in Keys(toObj)
    ensures d == KeyDelta(fromObj, toObj, k, prefix)
    decreases fromObj, 0
  {
    var path := Path(prefix, k);
    if k !in Keys(fromObj) {
      return Delta([path], [], []);
    }
    var a := fromObj.fields[FieldIndex(fromObj.fields, k)].value;
    var b := Get(toObj, k);
    if IsObject(a) && IsObject(b) {
      d := DiffJson(a, b, path);
    } else if a != b {
      d := Delta([], [path], []);
    } else {
      d := Empty;
    }
  }

  // ---------------------------------------------------------------------
  // Identity law: a snapshot compared with itself has no differences.

  lemma {:induction false} DiffIdentity(x: Json, prefix: string)
    ensures Diff(x, x, prefix) == Empty
    decreases x, 2
  {
    ToKeysIdentity(x, |Keys(x)|, prefix);
    MissingNone(x, |Keys(x)|, prefix);
  }

  lemma {:induction false} ToKeysIdentity(x: Json, n: nat, prefix: string)
    requires n <= |Keys(x)|
    ensures ToKeysDelta(x, x, n, prefix) == Empty
    decreases x, 1, n
  {
    if n > 0 {
      ToKeysIdentity(x, n - 1, prefix);
      var k := Keys(x)[n - 1];
      var a := x.fields[FieldIndex(x.fields, k)].value;
      if IsObject(a) {
        DiffIdentity(a, Path(prefix, k));
      }
    }
  }

  lemma {:induction false} MissingNone(x: Json, n: nat, prefix: string)
    requires n <= |Keys(x)|
    ensures MissingPaths(x, x, n, prefix) == []
  {
    if n > 0 {
      MissingNone(x, n - 1, prefix);
    }
  }

  // ---------------------------------------------------------------------
  // A null (or otherwise key-less) side counts as `{}`.

  /** The paths of a list of keys under one prefix. */
  function PathsOf(prefix: string, ks: seq<string>): (r: seq<string>)
    ensures |r| == |ks|
    ensures forall i :: 0 <= i < |ks| ==> r[i] == Path(prefix, ks[i])
  {
    if ks == [] then [] else PathsOf(prefix, ks[..|ks| - 1]) + [Path(prefix, ks[|ks| - 1])]
  }

  /** Against a null side every key of `to` is `new`, in key order. */
  lemma {:induction false} DiffFromNull(from: Json, to: Json, prefix: string)
    requires !from.JObj?
    ensures Diff(from, to, prefix) == Delta(PathsOf(prefix, Keys(to)), [], [])
  {
    AllAdded(from, to, |Keys(to)|, prefix);
    assert Keys(to)[..|Keys(to)|] == Keys(to);
  }

  lemma {:induction false} AllAdded(from: Json, to: Json, n: nat, prefix: string)
    requires !from.JObj? && n <= |Keys(to)|
    ensures ToKeysDelta(from, to, n, prefix) == Delta(PathsOf(prefix, Keys(to)[..n]), [], [])
  {
    if n > 0 {
      AllAdded(from, to, n - 1, prefix);
      assert Keys(to)[..n][..n - 1] == Keys(to)[..n - 1];
    }
  }

  /** Against a null side every key of `from` is `missing`, in key order. */
  lemma {:induction false} DiffToNull(from: Json, to: Json, prefix: string)
    requires !to.JObj?
    ensures Diff(from, to, prefix) == Delta([], [], PathsOf(prefix, Keys(from)))
  {
    AllMissing(from, to, |Keys(from)|, prefix);
    assert Keys(from)[..|Keys(from)|] == Keys(from);
  }

  lemma {:induction false} AllMissing(from: Json, to: Json, n: nat, prefix: string)
    requires !to.JObj? && n <= |Keys(from)|
    ensures MissingPaths(from, to, n, prefix) == PathsOf(prefix, Keys(from)[..n])
  {
    if n > 0 {
      AllMissing(from, to, n - 1, prefix);
      assert Keys(from)[..n][..n - 1] == Keys(from)[..n - 1];
    }
  }

  // ---------------------------------------------------------------------
  // Where each key of either side lands.

  /** Each list of `d` is contained, as a multiset, in the same list of `r`. */
  predicate Included(d: Delta, r: Delta) {
    && multiset(d.added) <= multiset(r.added)
    && multiset(d.modified) <= multiset(r.modified)
    && multiset(d.missing) <= multiset(r.missing)
  }

  lemma IncludedThen(d: Delta, a: Delta, b: Delta)
    requires Included(d, a)
    ensures Included(d, Then(a, b)) && Included(b, Then(a, b))
  {
  }

  /** The lists one key contributes are appended, whole, into the result. */
  lemma {:induction false} KeyDeltaIncluded(from: Json, to: Json, n: nat, i: nat, prefix: string)
    requires i < n <= |Keys(to)|
    ensures Included(KeyDelta(from, to, Keys(to)[i], prefix), ToKeysDelta(from, to, n, prefix))
  {
    var prev := ToKeysDelta(from, to, n - 1, prefix);
    var last := KeyDelta(from, to, Keys(to)[n - 1], prefix);
    assert ToKeysDelta(from, to, n, prefix) == Then(prev, last);
    if i < n - 1 {
      KeyDeltaIncluded(from, to, n - 1, i, prefix);
      IncludedThen(KeyDelta(from, to, Keys(to)[i], prefix), prev, last);
    } else {
      IncludedThen(Empty, prev, last);
    }
  }

  /** A key of `to` is found at some position of `Keys(to)`. */
  lemma KeyPosition(ks: seq<string>, k: string) returns (i: nat)
    requires k in ks
    ensures i < |ks| && ks[i] == k
  {
    i :| 0 <= i < |ks| && ks[i] == k;
  }

  /** The contribution of one key of `to` is part of the whole diff. */
  lemma KeyDeltaInDiff(from: Json, to: Json, k: string, prefix: string)
    requires k in Keys(to)
    ensures Included(KeyDelta(from, to, k, prefix), Diff(from, to, prefix))
  {
    var i := KeyPosition(Keys(to), k);
    KeyDeltaIncluded(from, to, |Keys(to)|, i, prefix);
  }

  /** A key of `to` absent from `from` is reported under `new`, and only its own
      path is: its value is not descended into. */
  lemma AddedKeyReported(from: Json, to: Json, k: string, prefix: string)
    requires k in Keys(to) && k !in Keys(from)
    ensures KeyDelta(from, to, k, prefix) == Delta([Path(prefix, k)], [], [])
    ensures Path(prefix, k) in Diff(from, to, prefix).added
  {
    KeyDeltaInDiff(from, to, k, prefix);
  }

  /** A shared key whose values are both objects is recursed into under the
      path `prefix.k`, and the child's three lists are appended. */
  lemma NestedKeyMerged(from: Json, to: Json, k: string, prefix: string)
    requires k in Keys(to) && k in Keys(from)
    requires IsObject(Get(from, k)) && IsObject(Get(to, k))
    ensures KeyDelta(from, to, k, prefix) == Diff(Get(from, k), Get(to, k), Path(prefix, k))
    ensures var child := Diff(Get(from, k), Get(to, k), Path(prefix, k));
            var r := Diff(from, to, prefix);
            && multiset(child.added) <= multiset(r.added)
            && multiset(child.modified) <= multiset(r.modified)
            && multiset(child.missing) <= multiset(r.missing)
  {
    KeyDeltaInDiff(from, to, k, prefix);
    var r := Diff(from, to, prefix);
    var t := ToKeysDelta(from, to, |Keys(to)|, prefix);
    assert r.missing == t.missing + MissingPaths(from, to, |Keys(from)|, prefix);
    assert multiset(t.missing) <= multiset(r.missing);
  }

  /** Any other shared key is `modified` exactly when the two values differ;
      arrays fall here and are compared whole. */
  lemma SharedKeyCompared(from: Json, to: Json, k: string, prefix: string)
    requires k in Keys(to) && k in Keys(from)
    requires !(IsObject(Get(from, k)) && IsObject(Get(to, k)))
    ensures KeyDelta(from, to, k, prefix)
            == if Get(from, k) != Get(to, k) then Delta([], [Path(prefix, k)], []) else Empty
    ensures Get(from, k) != Get(to, k) ==> Path(prefix, k) in Diff(from, to, prefix).modified
  {
    KeyDeltaInDiff(from, to, k, prefix);
  }

  /** The trailing `missing` entries name exactly the keys of `from` that `to` lacks. */
  lemma {:induction false} MissingPathsExact(from: Json, to: Json, n: nat, prefix: string, x: string)
    requires n <= |Keys(from)|
    ensures x in MissingPaths(from, to, n, prefix)
            <==> exists i :: 0 <= i < n && Keys(from)[i] !in Keys(to) && x == Path(prefix, Keys(from)[i])
  {
    if n > 0 {
      var ks := Keys(from);
      var k := ks[n - 1];
      var last := if k !in Keys(to) then [Path(prefix, k)] else [];
      MissingPathsExact(from, to, n - 1, prefix, x);
      assert MissingPaths(from, to, n, prefix) == MissingPaths(from, to, n - 1, prefix) + last;
      if x in last {
        assert ks[n - 1] !in Keys(to) && x == Path(prefix, ks[n - 1]);
      }
      if i :| 0 <= i < n && ks[i] !in Keys(to) && x == Path(prefix, ks[i]) {
        if i == n - 1 {
          assert x in last;
        }
      }
    }
  }

  /** A key of `from` absent from `to` is reported under `missing`, after every
      entry that the keys of `to` produced. */
  lemma RemovedKeyReported(from: Json, to: Json, k: string, prefix: string)
    requires k in Keys(from) && k !in Keys(to)
    ensures var t := ToKeysDelta(from, to, |Keys(to)|, prefix);
            var r := Diff(from, to, prefix);
            && r.missing[..|t.missing|] == t.missing
            && Path(prefix, k) in r.missing[|t.missing|..]
  {
    var i := KeyPosition(Keys(from), k);
    MissingPathsExact(from, to, |Keys(from)|, prefix, Path(prefix, k));
    var t := ToKeysDelta(from, to, |Keys(to)|, prefix);
    var r := Diff(from, to, prefix);
    assert r.missing[|t.missing|..] == MissingPaths(from, to, |Keys(from)|, prefix);
  }

  // ---------------------------------------------------------------------
  // Nested paths stay under their key.

  /** Every path of `d` extends `prefix` by a dot. */
  predicate Under(prefix: string, d: Delta) {
    && (forall x :: x in d.added ==> prefix + "." <= x)
    && (forall x :: x in d.modified ==> prefix + "." <= x)
    && (forall x :: x in d.missing ==> prefix + "." <= x)
  }

  /** Below a non-empty prefix every reported path starts with `prefix.`: what a
      nested diff reports about key `k` names `k.`-something, never `k` itself
      and never a sibling. */
  lemma {:induction false} DiffUnder(from: Json, to: Json, prefix: string)
    requires prefix != ""
    ensures Under(prefix, Diff(from, to, prefix))
    decreases from, 2
  {
    ToKeysUnder(from, to, |Keys(to)|, prefix);
    forall x | x in MissingPaths(from, to, |Keys(from)|, prefix)
      ensures prefix + "." <= x
    {
      MissingPathsExact(from, to, |Keys(from)|, prefix, x);
    }
  }

  lemma UnderThen(prefix: string, a: Delta, b: Delta)
    requires Under(prefix, a) && Under(prefix, b)
    ensures Under(prefix, Then(a, b))
  {
  }

  lemma {:induction false} ToKeysUnder(from: Json, to: Json, n: nat, prefix: string)
    requires n <= |Keys(to)| && prefix != ""
    ensures Under(prefix, ToKeysDelta(from, to, n, prefix))
    decreases from, 1, n
  {
    if n > 0 {
      var prev := ToKeysDelta(from, to, n - 1, prefix);
      var last := KeyDelta(from, to, Keys(to)[n - 1], prefix);
      assert ToKeysDelta(from, to, n, prefix) == Then(prev, last);
      ToKeysUnder(from, to, n - 1, prefix);
      KeyUnder(from, to, Keys(to)[n - 1], prefix);
      UnderThen(prefix, prev, last);
    }
  }

  lemma {:induction false} KeyUnder(from: Json, to: Json, k: string, prefix: string)
    requires k in Keys(to) && prefix != ""
    ensures Under(prefix, KeyDelta(from, to, k, prefix))
    decreases from, 0
  {
    var path := Path(prefix, k);
    assert prefix + "." <= path;
    if k in Keys(from) {
      var a := from.fields[FieldIndex(from.fields, k)].value;
      var b := Get(to, k);
      if IsObject(a) && IsObject(b) {
        DiffUnder(a, b, path);
        forall x | x in Diff(a, b, path).added + Diff(a, b, path).modified + Diff(a, b, path).missing
          ensures prefix + "." <= x
        {
          assert path + "." <= x;
          assert x[..|prefix| + 1] == (path + ".")[..|prefix| + 1];
        }
      }
    }
  }

  // ---------------------------------------------------------------------
  // The two-commit scenario: {vitals:{hr:80}} then {vitals:{hr:85}, note:"x"}.

  lemma VitalsScenario()
    ensures var v1 := JObj([Field("vitals", JObj([Field("hr", JNum(80))]))]);
            var v2 := JObj([Field("vitals", JObj([Field("hr", JNum(85))])), Field("note", JStr("x"))]);
            Diff(v1, v2, "") == Delta(["note"], ["vitals.hr"], [])
  {
    var inner1 := JObj([Field("hr", JNum(80))]);
    var inner2 := JObj([Field("hr", JNum(85))]);
    var v1 := JObj([Field("vitals", inner1)]);
    var v2 := JObj([Field("vitals", inner2), Field("note", JStr("x"))]);
    assert Keys(inner1) == ["hr"] && Keys(inner2) == ["hr"];
    assert Keys(v1) == ["vitals"] && Keys(v2) == ["vitals", "note"];
    assert Path("vitals", "hr") == "vitals.hr";
    assert FieldIndex(inner1.fields, "hr") == 0;
    assert KeyDelta(inner1, inner2, "hr", "vitals") == Delta([], ["vitals.hr"], []);
    assert ToKeysDelta(inner1, inner2, 1, "vitals") == Delta([], ["vitals.hr"], []);
    assert MissingPaths(inner1, inner2, 1, "vitals") == [];
    assert Diff(inner1, inner2, "vitals") == Delta([], ["vitals.hr"], []);
    assert KeyDelta(v1, v2, "vitals", "") == Delta([], ["vitals.hr"], []);
    assert KeyDelta(v1, v2, "note", "") == Delta(["note"], [], []);
    assert MissingPaths(v1, v2, 1, "") == [];
  }
}
