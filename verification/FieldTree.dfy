// Fields as a tree of nested maps (gamesync_store.go: readField, setField,
// maskedDocument): a lens whose every read after a write is determined, and
// the masks built from it.

module FieldTree {
  import opened Wrappers
  import opened Values
  import opened FieldPath

  type Path = seq<string>

  // ----- reading and setting -----

  function ReadField(f: Fields, path: Path): Option<Value>
    decreases |path|
  {
    if |path| == 0 then None
    else if |path| == 1 then Get(f, path[0])
    else ReadField(FieldsOf(Get(f, path[0])), path[1..])
  }

  /** Setting None deletes; a missing or scalar intermediate becomes an empty
      map first, even when deleting. */
  function SetField(f: Fields, path: Path, v: Option<Value>): Fields
    decreases |path|
  {
    if |path| == 0 then f
    else if |path| == 1 then Put(f, path[0], v)
    else f[path[0] := Map(SetField(FieldsOf(Get(f, path[0])), path[1..], v))]
  }

  method ReadFieldLoop(fields: Fields, path: Path) returns (v: Option<Value>)
    ensures v == ReadField(fields, path)
  {
    var f := fields;
    var i := 0;
    while i < |path|
      invariant 0 <= i <= |path|
      invariant ReadField(fields, path) == ReadField(f, path[i..])
    {
      v := Get(f, path[i]);
      if i == |path| - 1 {
        return;
      }
      f := FieldsOf(v);
      assert path[i..][1..] == path[i + 1..];
      i := i + 1;
    }
    v := None;
  }

  /** The value found at a path inside an optional value; the empty path is the
      value itself. */
  function ReadIn(v: Option<Value>, path: Path): Option<Value> {
    if path == [] then v else ReadField(FieldsOf(v), path)
  }

  ghost predicate Incomparable(p: Path, q: Path) {
    !(p <= q) && !(q <= p)
  }

  lemma {:induction false} ReadThrough(f: Fields, p: Path, r: Path)
    requires p != []
    ensures ReadField(f, p + r) == ReadIn(ReadField(f, p), r)
    decreases |p|
  {
    if r == [] {
      assert p + r == p;
    } else if |p| == 1 {
      assert (p + r)[1..] == r;
    } else {
      assert (p + r)[1..] == p[1..] + r;
      ReadThrough(FieldsOf(Get(f, p[0])), p[1..], r);
    }
  }

  /** Reading back the set path gives the set value, or absence. */
  lemma {:induction false} ReadSetSame(f: Fields, p: Path, v: Option<Value>)
    requires p != []
    ensures ReadField(SetField(f, p, v), p) == v
    decreases |p|
  {
    if |p| > 1 {
      ReadSetSame(FieldsOf(Get(f, p[0])), p[1..], v);
    }
  }

  /** Reading below the set path reads inside the set value. */
  lemma ReadSetBelow(f: Fields, p: Path, v: Option<Value>, q: Path)
    requires p != [] && p <= q
    ensures ReadField(SetField(f, p, v), q) == ReadIn(v, q[|p|..])
  {
    assert q == p + q[|p|..];
    ReadThrough(SetField(f, p, v), p, q[|p|..]);
    ReadSetSame(f, p, v);
  }

  /** Every path incomparable with the set one is unchanged. */
  lemma {:induction false} ReadSetApart(f: Fields, p: Path, v: Option<Value>, q: Path)
    requires Incomparable(p, q)
    ensures ReadField(SetField(f, p, v), q) == ReadField(f, q)
    decreases |p|
  {
    if p[0] == q[0] {
      assert p == [p[0]] + p[1..] && q == [q[0]] + q[1..];
      assert p[1..] <= q[1..] ==> p <= q;
      assert q[1..] <= p[1..] ==> q <= p;
      ReadSetApart(FieldsOf(Get(f, p[0])), p[1..], v, q[1..]);
    }
  }

  /** A proper ancestor of the set path becomes, or stays, a map. */
  lemma {:induction false} ReadSetAbove(f: Fields, p: Path, v: Option<Value>, q: Path)
    requires q != [] && q < p
    ensures ReadField(SetField(f, p, v), q)
            == Some(Map(SetField(FieldsOf(ReadField(f, q)), p[|q|..], v)))
    decreases |q|
  {
    if |q| > 1 {
      ReadSetAbove(FieldsOf(Get(f, p[0])), p[1..], v, q[1..]);
      assert p[1..][|q| - 1..] == p[|q|..];
    }
  }

  // ----- masks -----

  /** Parse every path of a mask; the first bad one is the answer. */
  function ParseMask(mask: seq<string>): Result<seq<Path>> {
    if mask == [] then Ok([])
    else
      var front :- ParseMask(mask[..|mask| - 1]);
      var last :- ParseFieldPath(mask[|mask| - 1]);
      Ok(front + [last])
  }

  /** Copy the masked paths of src over base, in mask order. */
  function CopyPaths(base: Fields, src: Fields, paths: seq<Path>): Fields {
    if paths == [] then base
    else
      var p := paths[|paths| - 1];
      SetField(CopyPaths(base, src, paths[..|paths| - 1]), p, ReadField(src, p))
  }

  predicate WholeMask(mask: Option<seq<string>>) {
    mask.None? || mask.value == ["*"]
  }

  /** The fields a masked read or a masked update leaves, over base. */
  function CopyMask(base: Fields, src: Fields, mask: Option<seq<string>>): Result<Fields> {
    if WholeMask(mask) then Ok(src)
    else
      var paths :- ParseMask(mask.value);
      Ok(CopyPaths(base, src, paths))
  }

  method CopyMaskLoop(base: Fields, src: Fields, mask: Option<seq<string>>) returns (r: Result<Fields>)
    ensures r == CopyMask(base, src, mask)
  {
    hide ParseFieldPath, ReadField, SetField, ParseMask, CopyPaths;
    if WholeMask(mask) {
      return Ok(src);
    }
    var out := base;
    NoPaths(base, src);
    ghost var done: seq<Path> := [];
    var i := 0;
    assert mask.value[..0] == [];
    while i < |mask.value|
      invariant 0 <= i <= |mask.value|
      invariant ParseMask(mask.value[..i]) == Ok(done)
      invariant out == CopyPaths(base, src, done)
    {
      var path := ReadFieldPath(mask.value[i]);
      ParseNext(mask.value, i);
      if path.Err? {
        ParseMaskFails(mask.value, i + 1);
        return Err(path.code);
      }
      var v := ReadFieldLoop(src, path.value);
      CopyNext(base, src, done, path.value);
      out := SetField(out, path.value, v);
      done := done + [path.value];
      i := i + 1;
    }
    assert mask.value[..i] == mask.value;
    return Ok(out);
  }

  lemma ParseNext(mask: seq<string>, i: nat)
    requires i < |mask| && ParseMask(mask[..i]).Ok?
    ensures var path := ParseFieldPath(mask[i]);
            ParseMask(mask[..i + 1]) == if path.Ok? then Ok(ParseMask(mask[..i]).value + [path.value]) else Err(path.code)
  {
    hide ParseFieldPath;
    assert mask[..i + 1][..i] == mask[..i];
  }

  lemma CopyNext(base: Fields, src: Fields, paths: seq<Path>, p: Path)
    ensures CopyPaths(base, src, paths + [p]) == SetField(CopyPaths(base, src, paths), p, ReadField(src, p))
  {
    hide ReadField, SetField;
    assert (paths + [p])[..|paths|] == paths;
  }

  lemma NoPaths(base: Fields, src: Fields)
    ensures ParseMask([]) == Ok([]) && CopyPaths(base, src, []) == base
  {
  }

  lemma {:induction false} ParseMaskFails(mask: seq<string>, i: nat)
    requires i <= |mask| && ParseMask(mask[..i]).Err?
    ensures ParseMask(mask) == ParseMask(mask[..i])
    decreases |mask|
  {
    if i < |mask| {
      assert mask[..|mask| - 1][..i] == mask[..i];
      ParseMaskFails(mask[..|mask| - 1], i);
    } else {
      assert mask[..i] == mask;
    }
  }

  function MaskedDocument(d: Document, mask: Option<seq<string>>): Result<Document> {
    var fields :- CopyMask(map[], d.fields, mask);
    Ok(d.(fields := fields))
  }

  ghost predicate KeyPaths(paths: seq<Path>) {
    forall i :: 0 <= i < |paths| ==> IsKeyPath(paths[i])
  }

  lemma {:induction false} ParsedMaskIsKeyPaths(mask: seq<string>)
    requires ParseMask(mask).Ok?
    ensures KeyPaths(ParseMask(mask).value) && |ParseMask(mask).value| == |mask|
  {
    if mask != [] {
      ParsedMaskIsKeyPaths(mask[..|mask| - 1]);
      ParsedPathIsKeyPath(mask[|mask| - 1]);
    }
  }

  /** The key paths a mask's strings denote, in order. */
  ghost predicate Denotes(mask: seq<string>, paths: seq<Path>) {
    |paths| == |mask| && forall i :: 0 <= i < |mask| ==> ParseFieldPath(mask[i]) == Ok(paths[i])
  }

  lemma {:induction false} DenotedMask(mask: seq<string>, paths: seq<Path>)
    ensures Denotes(mask, paths) <==> ParseMask(mask) == Ok(paths)
    decreases |mask|
  {
    hide ParseFieldPath;
    if mask != [] {
      var n := |mask| - 1;
      if |paths| == |mask| {
        DenotedMask(mask[..n], paths[..n]);
        assert paths == paths[..n] + [paths[n]];
      }
      if ParseMask(mask) == Ok(paths) {
        var front := ParseMask(mask[..n]).value;
        DenotedMask(mask[..n], front);
        assert paths[..n] == front;
      }
    }
  }

  lemma {:induction false} MaskDenotes(mask: seq<string>)
    requires ParseMask(mask).Ok?
    ensures Denotes(mask, ParseMask(mask).value)
  {
    DenotedMask(mask, ParseMask(mask).value);
  }

  /** A path no path of the mask reaches into or comes from. */
  ghost predicate Untouched(paths: seq<Path>, q: Path) {
    forall i :: 0 <= i < |paths| ==> Incomparable(paths[i], q)
  }

  /** Everything a mask does not touch keeps the value it had in base (absent,
      for a masked read). */
  lemma {:induction false} MaskLeavesApart(base: Fields, src: Fields, paths: seq<Path>, q: Path)
    requires Untouched(paths, q)
    ensures ReadField(CopyPaths(base, src, paths), q) == ReadField(base, q)
    decreases |paths|
  {
    if paths != [] {
      var n := |paths| - 1;
      MaskLeavesApart(base, src, paths[..n], q);
      ReadSetApart(CopyPaths(base, src, paths[..n]), paths[n], ReadField(src, paths[n]), q);
    }
  }

  /** A mask is faithful when every path is copied for good: no later path of
      the mask extends it, unless a still later one copies it (or an ancestor)
      again. Prefix-free masks are faithful. */
  ghost predicate Faithful(paths: seq<Path>) {
    forall i, j :: 0 <= i < j < |paths| && paths[i] < paths[j] ==> CopiedAgain(paths, i, j)
  }

  ghost predicate CopiedAgain(paths: seq<Path>, i: nat, j: nat)
    requires i < |paths|
  {
    exists k :: j < k < |paths| && paths[k] <= paths[i]
  }

  ghost predicate PrefixFree(paths: seq<Path>) {
    forall i, j :: 0 <= i < |paths| && 0 <= j < |paths| ==> !(paths[i] < paths[j])
  }

  lemma PrefixFreeIsFaithful(paths: seq<Path>)
    requires PrefixFree(paths)
    ensures Faithful(paths)
  {
  }

  ghost predicate Agrees(out: Fields, src: Fields, paths: seq<Path>) {
    forall i :: 0 <= i < |paths| ==> ReadField(out, paths[i]) == ReadField(src, paths[i])
  }

  /** Copying the first n paths keeps what path k settled, as long as every
      path between k and n is incomparable with p. */
  lemma {:induction false} CopySettled(base: Fields, src: Fields, paths: seq<Path>, k: nat, p: Path)
    requires k < |paths| && paths[k] != [] && paths[k] <= p
    requires forall j :: k < j < |paths| ==> Incomparable(paths[j], p)
    ensures ReadField(CopyPaths(base, src, paths), p) == ReadField(src, p)
    decreases |paths|
  {
    var n := |paths| - 1;
    var before := CopyPaths(base, src, paths[..n]);
    if k == n {
      ReadSetBelow(before, paths[n], ReadField(src, paths[n]), p);
      assert p == paths[n] + p[|paths[n]|..];
      ReadThrough(src, paths[n], p[|paths[n]|..]);
    } else {
      CopySettled(base, src, paths[..n], k, p);
      ReadSetApart(before, paths[n], ReadField(src, paths[n]), p);
    }
  }

  lemma {:induction false} LastCopy(paths: seq<Path>, p: Path, n: nat) returns (k: nat)
    requires n <= |paths| && exists i :: 0 <= i < n && paths[i] <= p
    ensures k < n && paths[k] <= p
    ensures forall j :: k < j < n ==> !(paths[j] <= p)
  {
    if paths[n - 1] <= p {
      k := n - 1;
    } else {
      k := LastCopy(paths, p, n - 1);
    }
  }

  lemma FaithfulMaskAgrees(base: Fields, src: Fields, paths: seq<Path>, i: nat)
    requires KeyPaths(paths) && Faithful(paths) && i < |paths|
    ensures ReadField(CopyPaths(base, src, paths), paths[i]) == ReadField(src, paths[i])
  {
    var p := paths[i];
    var k := LastCopy(paths, p, |paths|);
    forall j | k < j < |paths| ensures Incomparable(paths[j], p) {
      if p <= paths[j] {
        assert false;
      }
    }
    CopySettled(base, src, paths, k, p);
  }

  /** A tree whose only value is a scalar at p. */
  ghost function ScalarAt(p: Path): Fields {
    SetField(map[], p, Some(Null))
  }

  lemma {:induction false} StaysMap(base: Fields, src: Fields, paths: seq<Path>, p: Path, j: nat)
    requires KeyPaths(paths) && p != [] && j < |paths| && p < paths[j]
    requires forall k :: j < k < |paths| ==> !(paths[k] <= p)
    ensures ReadField(CopyPaths(base, src, paths), p).Some?
    ensures ReadField(CopyPaths(base, src, paths), p).value.Map?
    decreases |paths|
  {
    var n := |paths| - 1;
    var before, q := CopyPaths(base, src, paths[..n]), paths[n];
    if p < q {
      ReadSetAbove(before, q, ReadField(src, q), p);
    } else {
      StaysMap(base, src, paths[..n], p, j);
      ReadSetApart(before, q, ReadField(src, q), p);
    }
  }

  /** The exact condition: a mask copies every one of its paths, whatever the
      source and the base, if and only if it is faithful. */
  lemma MaskAgreesIffFaithful(paths: seq<Path>, base: Fields)
    requires KeyPaths(paths)
    ensures Faithful(paths) <==> forall src :: Agrees(CopyPaths(base, src, paths), src, paths)
  {
    if Faithful(paths) {
      forall src ensures Agrees(CopyPaths(base, src, paths), src, paths) {
        forall i | 0 <= i < |paths|
          ensures ReadField(CopyPaths(base, src, paths), paths[i]) == ReadField(src, paths[i])
        {
          FaithfulMaskAgrees(base, src, paths, i);
        }
      }
    } else {
      var i, j :| 0 <= i < j < |paths| && paths[i] < paths[j] && !CopiedAgain(paths, i, j);
      var src := ScalarAt(paths[i]);
      ReadSetSame(map[], paths[i], Some(Null));
      StaysMap(base, src, paths, paths[i], j);
      assert !Agrees(CopyPaths(base, src, paths), src, paths);
    }
  }

  /** The smallest unfaithful mask: copying "a" and then the absent "a.b"
      replaces the scalar at "a" by an empty map. */
  lemma DeletingBelowScalarReplacesIt(x: Value)
    requires !x.Map?
    ensures var src: Fields := map["a" := x];
            && ReadField(src, ["a"]) == Some(x)
            && ReadField(CopyPaths(map[], src, [["a"], ["a", "b"]]), ["a"]) == Some(Map(map[]))
  {
    var src: Fields := map["a" := x];
    var paths: seq<Path> := [["a"], ["a", "b"]];
    assert paths[..1] == [["a"]] && paths[..1][..0] == [];
    var first := CopyPaths(map[], src, paths[..1]);
    assert ["a", "b"][1..] == ["b"];
    ReadSetAbove(first, ["a", "b"], None, ["a"]);
    ReadSetSame(map[], ["a"], Some(x));
  }
}
