/** Flattening of request payloads into URL search parameters. */
module Flatten {
  import opened Wrappers
  import opened Lists

  datatype Number = Finite(r: real) | NaN | Infinite(negative: bool)

  datatype Primitive = Str(s: string) | Bool(b: bool) | Num(n: Number)

  /** `Unsupported` is anything that is no primitive, array or plain object: null, undefined, a class instance. */
  datatype Value =
    | Prim(p: Primitive)
    | Array(elements: seq<Value>)
    | Object(fields: seq<Field>)
    | Unsupported

  // A plain object, as its own enumerable keys in the order in which they are listed.
  datatype Field = Field(key: string, value: Value)

  /** What a flattened key maps to. */
  datatype Flat = Scalar(p: Primitive) | Many(ps: seq<Primitive>)

  predicate IsZeroValue(p: Primitive) {
    p == Bool(false) || p == Num(Finite(0.0)) || p == Str("")
  }

  /** The primitives of an array that holds nothing else. */
  function Primitives(elements: seq<Value>): Option<seq<Primitive>> {
    if elements == [] then Some([])
    else
      var n := |elements| - 1;
      match Primitives(elements[..n])
      case Some(ps) => if elements[n].Prim? then Some(ps + [elements[n].p]) else None
      case None => None
  }

  /** What is kept of a value that is not a plain object. */
  function LeafOf(v: Value): Option<Flat> {
    match v
    case Prim(p) => if IsZeroValue(p) then None else Some(Scalar(p))
    case Array(elements) =>
      (match Primitives(elements)
       case Some(ps) => if ps == [] then None else Some(Many(ps))
       case None => None)
    case _ => None
  }

  function NewPath(path: string, key: string): string {
    if path != "" then path + "." + key else key
  }

  function FlattenPayload(fields: seq<Field>, path: string): map<string, Flat>
    decreases fields
  {
    if fields == [] then map[]
    else
      var n := |fields| - 1;
      FlattenPayload(fields[..n], path) + ObjectToMerge(fields[n].value, NewPath(path, fields[n].key))
  }

  function ObjectToMerge(v: Value, newPath: string): map<string, Flat>
    decreases v
  {
    if v.Object? then FlattenPayload(v.fields, newPath)
    else match LeafOf(v)
      case Some(leaf) => map[newPath := leaf]
      case None => map[]
  }

  /** A value that is kept as `leaf`: a primitive other than zero, or a non-empty array of primitives. */
  ghost predicate KeptAs(v: Value, leaf: Flat) {
    match leaf
    case Scalar(p) =>
      && v == Prim(p)
      && (p.Str? ==> p.s != "") && (p.Bool? ==> p.b) && (p.Num? ==> p.n != Finite(0.0))
    case Many(ps) =>
      && v.Array?
      && v.elements != []
      && |ps| == |v.elements|
      && forall i | 0 <= i < |ps| :: v.elements[i] == Prim(ps[i])
  }

  lemma {:induction false} PrimitivesAre(elements: seq<Value>)
    ensures Primitives(elements).Some? <==> forall i | 0 <= i < |elements| :: elements[i].Prim?
    ensures Primitives(elements).Some? ==>
              && |Primitives(elements).value| == |elements|
              && forall i | 0 <= i < |elements| :: elements[i] == Prim(Primitives(elements).value[i])
  {
    if elements != [] {
      PrimitivesAre(elements[..|elements| - 1]);
    }
  }

  /** What is kept of a value, exactly; a plain object, and what is unsupported, is kept as nothing. */
  lemma LeafOfExactly(v: Value, leaf: Flat)
    ensures LeafOf(v) == Some(leaf) <==> KeptAs(v, leaf)
  {
    if v.Array? {
      PrimitivesAre(v.elements);
      if leaf.Many? && KeptAs(v, leaf) {
        assert leaf.ps == Primitives(v.elements).value;
      }
    }
  }

  // The leaves of a payload, by the path of keys that leads to them.

  datatype Leaf = Leaf(path: seq<string>, value: Flat)

  function Leaves(fields: seq<Field>, prefix: seq<string>): seq<Leaf>
    decreases fields
  {
    if fields == [] then []
    else
      var n := |fields| - 1;
      Leaves(fields[..n], prefix) + ValueLeaves(fields[n].value, prefix + [fields[n].key])
  }

  function ValueLeaves(v: Value, path: seq<string>): seq<Leaf>
    decreases v
  {
    if v.Object? then Leaves(v.fields, path)
    else match LeafOf(v)
      case Some(leaf) => [Leaf(path, leaf)]
      case None => []
  }

  function JoinPath(path: seq<string>): string {
    if path == [] then ""
    else NewPath(JoinPath(path[..|path| - 1]), path[|path| - 1])
  }

  function KeyOf(l: Leaf): string { JoinPath(l.path) }
  function ValueOf(l: Leaf): Flat { l.value }

  lemma {:induction false} LastMapConcat<T, V>(a: seq<T>, b: seq<T>, key: T -> string, val: T -> V)
    ensures LastMap(a + b, key, val) == LastMap(a, key, val) + LastMap(b, key, val)
  {
    if b == [] {
      assert a + b == a;
    } else {
      var n := |b| - 1;
      assert (a + b)[..|a| + n] == a + b[..n];
      LastMapConcat(a, b[..n], key, val);
    }
  }

  lemma JoinSnoc(prefix: seq<string>, key: string)
    ensures JoinPath(prefix + [key]) == NewPath(JoinPath(prefix), key)
  {
    assert (prefix + [key])[..|prefix|] == prefix;
  }

  /** For every payload, a flattened key has the value of the last leaf, in traversal order, whose path joins to it. */
  lemma {:induction false} FlattenIsLastLeaf(fields: seq<Field>, prefix: seq<string>)
    ensures FlattenPayload(fields, JoinPath(prefix)) == LastMap(Leaves(fields, prefix), KeyOf, ValueOf)
    decreases fields
  {
    if fields != [] {
      var n := |fields| - 1;
      var path := prefix + [fields[n].key];
      FlattenIsLastLeaf(fields[..n], prefix);
      JoinSnoc(prefix, fields[n].key);
      MergeIsLastLeaf(fields[n].value, path);
      LastMapConcat(Leaves(fields[..n], prefix), ValueLeaves(fields[n].value, path), KeyOf, ValueOf);
    }
  }

  lemma {:induction false} MergeIsLastLeaf(v: Value, path: seq<string>)
    ensures ObjectToMerge(v, JoinPath(path)) == LastMap(ValueLeaves(v, path), KeyOf, ValueOf)
    decreases v
  {
    if v.Object? {
      FlattenIsLastLeaf(v.fields, path);
    } else if LeafOf(v).Some? {
      var l := Leaf(path, LeafOf(v).value);
      assert [l][..0] == [];
    }
  }

  /** Keys listed later win: flattening in two parts is flattening, and merging the second over the first. */
  lemma {:induction false} FlattenConcat(a: seq<Field>, b: seq<Field>, path: string)
    ensures FlattenPayload(a + b, path) == FlattenPayload(a, path) + FlattenPayload(b, path)
  {
    if b == [] {
      assert a + b == a;
    } else {
      var n := |b| - 1;
      ConcatSnoc(a, b);
      FlattenConcat(a, b[..n], path);
      FlattenSnoc(a + b[..n], b[n], path);
      MergeAssociative(FlattenPayload(a, path), FlattenPayload(b[..n], path),
                       ObjectToMerge(b[n].value, NewPath(path, b[n].key)));
    }
  }

  lemma MergeAssociative(x: map<string, Flat>, y: map<string, Flat>, z: map<string, Flat>)
    ensures (x + y) + z == x + (y + z)
  {
  }

  lemma FlattenSnoc(fields: seq<Field>, f: Field, path: string)
    ensures FlattenPayload(fields + [f], path)
         == FlattenPayload(fields, path) + ObjectToMerge(f.value, NewPath(path, f.key))
  {
    assert (fields + [f])[..|fields|] == fields;
  }

  // Where leaves are.

  /** Following `path` from the payload leads to this leaf. */
  ghost predicate LeafAt(fields: seq<Field>, path: seq<string>, leaf: Flat)
    decreases |path|, 0
  {
    path != [] &&
    exists i | 0 <= i < |fields| :: fields[i].key == path[0] && LeafIn(fields[i].value, path[1..], leaf)
  }

  /** Following `path` from the value leads to this leaf. */
  ghost predicate LeafIn(v: Value, path: seq<string>, leaf: Flat)
    decreases |path|, 1
  {
    if path == [] then KeptAs(v, leaf)
    else v.Object? && LeafAt(v.fields, path, leaf)
  }

  lemma {:induction false} LeavesAt(fields: seq<Field>, prefix: seq<string>, l: Leaf)
    ensures l in Leaves(fields, prefix)
       <==> prefix <= l.path && LeafAt(fields, l.path[|prefix|..], l.value)
    decreases fields
  {
    if fields != [] {
      var n := |fields| - 1;
      var f := fields[n];
      LeavesAt(fields[..n], prefix, l);
      ValueLeavesAt(f.value, prefix + [f.key], l);
      if prefix <= l.path && |l.path| > |prefix| {
        var path := l.path[|prefix|..];
        LeafAtSnoc(fields, path, l.value);
        if path[0] == f.key {
          assert l.path[|prefix| + 1..] == path[1..];
          assert prefix + [f.key] <= l.path;
        }
      }
    }
  }

  lemma {:induction false} ValueLeavesAt(v: Value, path: seq<string>, l: Leaf)
    ensures l in ValueLeaves(v, path) <==> path <= l.path && LeafIn(v, l.path[|path|..], l.value)
    decreases v
  {
    if v.Object? {
      LeavesAt(v.fields, path, l);
    } else {
      LeafOfExactly(v, l.value);
      ValueLeavesOf(v, path, l);
    }
  }

  lemma ValueLeavesOf(v: Value, path: seq<string>, l: Leaf)
    requires !v.Object?
    ensures l in ValueLeaves(v, path) <==> l.path == path && LeafOf(v) == Some(l.value)
  {
  }

  lemma LeafAtSnoc(fields: seq<Field>, path: seq<string>, leaf: Flat)
    requires fields != [] && path != []
    ensures LeafAt(fields, path, leaf)
       <==> (LeafAt(fields[..|fields| - 1], path, leaf)
             || (fields[|fields| - 1].key == path[0] && LeafIn(fields[|fields| - 1].value, path[1..], leaf)))
  {
    var n := |fields| - 1;
    if LeafAt(fields[..n], path, leaf) {
      var i :| 0 <= i < n && fields[..n][i].key == path[0] && LeafIn(fields[..n][i].value, path[1..], leaf);
      assert fields[i] == fields[..n][i];
    }
    if LeafAt(fields, path, leaf) {
      var i :| 0 <= i < |fields| && fields[i].key == path[0] && LeafIn(fields[i].value, path[1..], leaf);
      if i < n {
        assert fields[i] == fields[..n][i];
      }
    }
  }

  // Paths and their joined keys.

  /** The components of a key, separated at its dots. */
  function SplitDots(key: string): (r: seq<string>)
    ensures r != []
  {
    if key == "" then [""]
    else
      var n := |key| - 1;
      var before := SplitDots(key[..n]);
      if key[n] == '.' then before + [""]
      else before[..|before| - 1] + [before[|before| - 1] + [key[n]]]
  }

  ghost predicate DotFree(path: seq<string>) {
    forall i | 0 <= i < |path| :: '.' !in path[i]
  }

  lemma {:induction false} SplitDotsPlain(key: string, plain: string)
    requires '.' !in plain
    ensures SplitDots(key + plain)
         == SplitDots(key)[..|SplitDots(key)| - 1] + [SplitDots(key)[|SplitDots(key)| - 1] + plain]
  {
    var s := SplitDots(key);
    if plain == "" {
      assert key + plain == key && s[|s| - 1] + plain == s[|s| - 1];
    } else {
      var n := |plain| - 1;
      SplitDotsPlain(key, plain[..n]);
      assert (key + plain)[..|key| + n] == key + plain[..n];
      assert plain == plain[..n] + [plain[n]];
      assert s[|s| - 1] + plain == (s[|s| - 1] + plain[..n]) + [plain[n]];
    }
  }

  lemma SplitDotsComponent(key: string, component: string)
    requires '.' !in component
    ensures SplitDots(key + "." + component) == SplitDots(key) + [component]
  {
    assert (key + ".")[..|key|] == key;
    SplitDotsPlain(key + ".", component);
    assert "" + component == component;
    var s := SplitDots(key) + [""];
    assert s[..|s| - 1] == SplitDots(key);
  }

  lemma {:induction false} SplitDotsDotFree(key: string)
    ensures DotFree(SplitDots(key))
  {
    if key != "" {
      SplitDotsDotFree(key[..|key| - 1]);
    }
  }

  lemma {:induction false} JoinNonEmpty(path: seq<string>)
    requires path != [] && path[0] != ""
    ensures JoinPath(path) != ""
  {
    if |path| > 1 {
      JoinNonEmpty(path[..|path| - 1]);
    }
  }

  lemma {:induction false} SplitJoined(path: seq<string>)
    requires path != [] && DotFree(path) && (path[0] != "" || |path| == 1)
    ensures SplitDots(JoinPath(path)) == path
  {
    var n := |path| - 1;
    if n == 0 {
      SplitDotsPlain("", path[0]);
      assert "" + path[0] == path[0] && path[..0] == [];
    } else {
      var before := path[..n];
      assert path == before + [path[n]] && before[0] == path[0];
      JoinNonEmpty(before);
      SplitDotsComponent(JoinPath(before), path[n]);
      SplitJoined(before);
    }
  }

  /** An empty first component leaves no trace when more follow: the key is that of the other components. */
  lemma {:induction false} SplitJoinedShorter(path: seq<string>)
    requires path != [] && DotFree(path)
    ensures |SplitDots(JoinPath(path))| <= |path|
    ensures path[0] == "" && |path| > 1 ==> |SplitDots(JoinPath(path))| < |path|
  {
    var n := |path| - 1;
    if n == 0 {
      SplitDotsPlain("", path[0]);
      assert "" + path[0] == path[0] && path[..0] == [];
    } else {
      SplitJoinedShorter(path[..n]);
      var before := JoinPath(path[..n]);
      if before == "" {
        SplitDotsPlain("", path[n]);
        assert "" + path[n] == path[n];
      } else {
        SplitDotsComponent(before, path[n]);
        if n == 1 {
          assert path[..1] == [path[0]] && path[..1][..0] == [];
        }
      }
    }
  }

  /** A path can be read back from its joined key exactly when it is dot-free and does not start with an empty key. */
  lemma PathRecoverable(path: seq<string>)
    ensures SplitDots(JoinPath(path)) == path <==> Recoverable(path)
  {
    if path != [] && DotFree(path) {
      if path[0] != "" || |path| == 1 {
        SplitJoined(path);
      } else {
        SplitJoinedShorter(path);
      }
    } else {
      SplitDotsDotFree(JoinPath(path));
    }
  }

  /** What a joined key splits into does not start with an empty component, unless that is all there is. */
  lemma {:induction false} SplitDotFreeHead(path: seq<string>)
    requires DotFree(path)
    ensures Recoverable(SplitDots(JoinPath(path)))
  {
    var key := JoinPath(path);
    SplitDotsDotFree(key);
    if path != [] {
      var n := |path| - 1;
      var before := JoinPath(path[..n]);
      SplitDotFreeHead(path[..n]);
      if before == "" {
        SplitDotsPlain("", path[n]);
        assert "" + path[n] == path[n];
      } else {
        SplitDotsComponent(before, path[n]);
        if |SplitDots(before)| == 1 {
          OneComponent(before);
        }
      }
    }
  }

  lemma {:induction false} OneComponent(key: string)
    requires |SplitDots(key)| == 1
    ensures SplitDots(key) == [key]
  {
    if key != "" {
      var n := |key| - 1;
      OneComponent(key[..n]);
      assert key == key[..n] + [key[n]];
    }
  }

  // Payloads whose flattened form can be read back.

  /** The keys of every object are distinct, as those of JavaScript objects are. */
  ghost predicate Keyed(fields: seq<Field>)
    decreases fields
  {
    && (forall i, j | 0 <= i < j < |fields| :: fields[i].key != fields[j].key)
    && (forall i | 0 <= i < |fields| :: KeyedValue(fields[i].value))
  }

  ghost predicate KeyedValue(v: Value)
    decreases v
  {
    v.Object? ==> Keyed(v.fields)
  }

  /** No component has a dot, and the first of several is not empty. */
  ghost predicate Recoverable(path: seq<string>) {
    path != [] && DotFree(path) && (path[0] != "" || |path| == 1)
  }

  /** The path of every leaf can be read back from its joined key. */
  ghost predicate Invertible(fields: seq<Field>) {
    forall path, leaf | LeafAt(fields, path, leaf) :: Recoverable(path)
  }

  lemma {:induction false} OneLeafPerPath(fields: seq<Field>, path: seq<string>, a: Flat, b: Flat)
    requires Keyed(fields) && LeafAt(fields, path, a) && LeafAt(fields, path, b)
    ensures a == b
    decreases |path|
  {
    var i :| 0 <= i < |fields| && fields[i].key == path[0] && LeafIn(fields[i].value, path[1..], a);
    var j :| 0 <= j < |fields| && fields[j].key == path[0] && LeafIn(fields[j].value, path[1..], b);
    assert i == j && KeyedValue(fields[i].value);
    if |path| > 1 {
      OneLeafPerPath(fields[i].value.fields, path[1..], a, b);
    }
  }

  /** Leaves with distinct recoverable paths have distinct flattened keys. */
  lemma DistinctKeys(fields: seq<Field>, p: seq<string>, q: seq<string>, a: Flat, b: Flat)
    requires Keyed(fields) && LeafAt(fields, p, a) && LeafAt(fields, q, b)
    requires Recoverable(p) && Recoverable(q) && JoinPath(p) == JoinPath(q)
    ensures p == q && a == b
  {
    SplitJoined(p);
    SplitJoined(q);
    OneLeafPerPath(fields, p, a, b);
  }

  /** The joined path of every leaf is a flattened key. */
  lemma LeafHasFlattenedKey(fields: seq<Field>, path: seq<string>, leaf: Flat)
    requires LeafAt(fields, path, leaf)
    ensures JoinPath(path) in FlattenPayload(fields, "")
  {
    var leaves, l := Leaves(fields, []), Leaf(path, leaf);
    assert path[0..] == path;
    LeavesAt(fields, [], l);
    FlattenIsLastLeaf(fields, []);
    LastMapReads(leaves, KeyOf, ValueOf, JoinPath(path));
    var k :| 0 <= k < |leaves| && leaves[k] == l;
    assert KeyOf(leaves[k]) == JoinPath(path);
  }

  lemma LeafIsFlattened(fields: seq<Field>, path: seq<string>, leaf: Flat)
    requires Keyed(fields) && Invertible(fields) && LeafAt(fields, path, leaf)
    ensures Lookup(FlattenPayload(fields, ""), JoinPath(path)) == Some(leaf)
  {
    LeafHasFlattenedKey(fields, path, leaf);
    var q := FlattenedIsLeaf(fields, JoinPath(path));
    DistinctKeys(fields, path, q, leaf, FlattenPayload(fields, "")[JoinPath(path)]);
  }

  lemma FlattenedIsLeaf(fields: seq<Field>, key: string)
    returns (path: seq<string>)
    requires key in FlattenPayload(fields, "")
    ensures LeafAt(fields, path, FlattenPayload(fields, "")[key]) && JoinPath(path) == key
  {
    var leaves := Leaves(fields, []);
    FlattenIsLastLeaf(fields, []);
    LastMapReads(leaves, KeyOf, ValueOf, key);
    var i := LastWithAt(leaves, KeyOf, key);
    path := leaves[i].path;
    LeavesAt(fields, [], leaves[i]);
    assert path[0..] == path;
  }

  /**
   The flattened map of an invertible payload has exactly its leaves, each under its joined path: a key is present
   with a value just when the path it splits into leads to that leaf.
   */
  lemma FlattenExactly(fields: seq<Field>, key: string, leaf: Flat)
    requires Keyed(fields) && Invertible(fields)
    ensures Lookup(FlattenPayload(fields, ""), key) == Some(leaf)
       <==> LeafAt(fields, SplitDots(key), leaf) && JoinPath(SplitDots(key)) == key
  {
    if Lookup(FlattenPayload(fields, ""), key) == Some(leaf) {
      var path := FlattenedIsLeaf(fields, key);
      SplitJoined(path);
    }
    if LeafAt(fields, SplitDots(key), leaf) && JoinPath(SplitDots(key)) == key {
      LeafIsFlattened(fields, SplitDots(key), leaf);
    }
  }
}
