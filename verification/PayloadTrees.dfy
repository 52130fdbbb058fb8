/** Rebuilding a payload from its flattened form. */
module PayloadTrees {
  import opened Wrappers
  import opened Flatten

  /** A payload without its zero, empty and unsupported parts, and without the order of its keys. */
  datatype Tree = Kept(value: Flat) | Branch(children: map<string, Tree>)

  function Prune(fields: seq<Field>): map<string, Tree>
    decreases fields
  {
    if fields == [] then map[]
    else
      var n := |fields| - 1;
      var rest := Prune(fields[..n]);
      match PruneValue(fields[n].value)
      case Some(t) => rest[fields[n].key := t]
      case None => rest
  }

  function PruneValue(v: Value): Option<Tree>
    decreases v
  {
    if v.Object? then
      var children := Prune(v.fields);
      if children == map[] then None else Some(Branch(children))
    else match LeafOf(v)
      case Some(leaf) => Some(Kept(leaf))
      case None => None
  }

  // Leaves of trees.

  predicate TreeAt(m: map<string, Tree>, path: seq<string>, leaf: Flat)
    decreases |path|, 0
  {
    path != [] && path[0] in m && TreeIn(m[path[0]], path[1..], leaf)
  }

  predicate TreeIn(t: Tree, path: seq<string>, leaf: Flat)
    decreases |path|, 1
  {
    if path == [] then t == Kept(leaf) else t.Branch? && TreeAt(t.children, path, leaf)
  }

  lemma KeyedPrefix(fields: seq<Field>)
    requires Keyed(fields) && fields != []
    ensures Keyed(fields[..|fields| - 1]) && KeyedValue(fields[|fields| - 1].value)
  {
    var n := |fields| - 1;
    assert forall i | 0 <= i < n :: fields[..n][i] == fields[i];
  }

  lemma {:induction false} PrunedKeys(fields: seq<Field>, key: string)
    requires forall i | 0 <= i < |fields| :: fields[i].key != key
    ensures key !in Prune(fields)
  {
    if fields != [] {
      var n := |fields| - 1;
      assert forall i | 0 <= i < n :: fields[..n][i] == fields[i];
      PrunedKeys(fields[..n], key);
    }
  }

  /** Pruning keeps exactly the leaves that flattening keeps. */
  lemma {:induction false} PruneLeaves(fields: seq<Field>, path: seq<string>, leaf: Flat)
    requires Keyed(fields)
    ensures TreeAt(Prune(fields), path, leaf) <==> LeafAt(fields, path, leaf)
    decreases fields
  {
    if fields != [] && path != [] {
      var n := |fields| - 1;
      var f := fields[n];
      KeyedPrefix(fields);
      PruneLeaves(fields[..n], path, leaf);
      PruneValueLeaves(f.value, path[1..], leaf);
      LeafAtSnoc(fields, path, leaf);
      forall i | 0 <= i < n ensures fields[..n][i].key != f.key {
        assert fields[..n][i] == fields[i];
      }
      PrunedKeys(fields[..n], f.key);
    }
  }

  lemma {:induction false} PruneValueLeaves(v: Value, path: seq<string>, leaf: Flat)
    requires KeyedValue(v)
    ensures LeafIn(v, path, leaf) <==> PruneValue(v).Some? && TreeIn(PruneValue(v).value, path, leaf)
    decreases v
  {
    if v.Object? {
      PruneLeaves(v.fields, path, leaf);
    } else {
      LeafOfExactly(v, leaf);
    }
  }

  // Trees are determined by their leaves.

  ghost predicate Pruned(t: Tree)
    decreases t
  {
    match t
    case Kept(_) => true
    case Branch(children) => children != map[] && forall k | k in children :: Pruned(children[k])
  }

  ghost predicate AllPruned(m: map<string, Tree>) {
    forall k | k in m :: Pruned(m[k])
  }

  lemma {:induction false} PruneIsPruned(fields: seq<Field>)
    ensures AllPruned(Prune(fields))
    decreases fields
  {
    if fields != [] {
      var n := |fields| - 1;
      PruneIsPruned(fields[..n]);
      PruneValueIsPruned(fields[n].value);
    }
  }

  lemma {:induction false} PruneValueIsPruned(v: Value)
    ensures PruneValue(v).Some? ==> Pruned(PruneValue(v).value)
    decreases v
  {
    if v.Object? {
      PruneIsPruned(v.fields);
    }
  }

  lemma {:induction false} SomeLeaf(t: Tree) returns (path: seq<string>, leaf: Flat)
    requires Pruned(t)
    ensures TreeIn(t, path, leaf)
    decreases t
  {
    match t
    case Kept(value) => path, leaf := [], value;
    case Branch(children) =>
      var k :| k in children;
      var rest;
      rest, leaf := SomeLeaf(children[k]);
      path := [k] + rest;
      assert path[1..] == rest;
  }

  ghost predicate SameLeaves(a: map<string, Tree>, b: map<string, Tree>) {
    forall path, leaf :: TreeAt(a, path, leaf) <==> TreeAt(b, path, leaf)
  }

  lemma SameLeavesKey(a: map<string, Tree>, b: map<string, Tree>, k: string)
    requires AllPruned(a) && SameLeaves(a, b) && k in a
    ensures k in b
  {
    var rest, leaf := SomeLeaf(a[k]);
    assert ([k] + rest)[1..] == rest;
    assert TreeAt(a, [k] + rest, leaf);
  }

  lemma SameLeavesBelow(a: map<string, Tree>, b: map<string, Tree>, k: string, path: seq<string>, leaf: Flat)
    requires SameLeaves(a, b) && k in a && k in b
    ensures TreeIn(a[k], path, leaf) <==> TreeIn(b[k], path, leaf)
  {
    assert ([k] + path)[1..] == path;
    assert TreeAt(a, [k] + path, leaf) <==> TreeAt(b, [k] + path, leaf);
  }

  lemma {:induction false} SameTree(s: Tree, t: Tree)
    requires Pruned(s) && Pruned(t)
    requires forall path, leaf :: TreeIn(s, path, leaf) <==> TreeIn(t, path, leaf)
    ensures s == t
    decreases s
  {
    match s
    case Kept(leaf) => assert TreeIn(s, [], leaf);
    case Branch(children) =>
      if t.Kept? {
        assert TreeIn(t, [], t.value);
      } else {
        forall path, leaf ensures TreeAt(children, path, leaf) <==> TreeAt(t.children, path, leaf) {
          assert TreeIn(s, path, leaf) <==> TreeIn(t, path, leaf);
        }
        forall k | k in children ensures k in t.children && children[k] == t.children[k] {
          SameLeavesKey(children, t.children, k);
          forall path, leaf ensures TreeIn(children[k], path, leaf) <==> TreeIn(t.children[k], path, leaf) {
            SameLeavesBelow(children, t.children, k, path, leaf);
          }
          SameTree(children[k], t.children[k]);
        }
        forall k | k in t.children ensures k in children {
          SameLeavesKey(t.children, children, k);
        }
        assert children == t.children;
      }
  }

  /** Pruned trees with the same leaves are equal. */
  lemma SameForest(a: map<string, Tree>, b: map<string, Tree>)
    requires AllPruned(a) && AllPruned(b) && SameLeaves(a, b)
    ensures a == b
  {
    forall k | k in a ensures k in b && a[k] == b[k] {
      SameLeavesKey(a, b, k);
      forall path, leaf ensures TreeIn(a[k], path, leaf) <==> TreeIn(b[k], path, leaf) {
        SameLeavesBelow(a, b, k, path, leaf);
      }
      SameTree(a[k], b[k]);
    }
    forall k | k in b ensures k in a {
      SameLeavesKey(b, a, k);
    }
  }

  // The inverse of flattening.

  /** The keys that follow `prefix` in the flattened keys. */
  function Heads(flat: map<string, Flat>, prefix: seq<string>): set<string> {
    set k | k in flat && prefix <= SplitDots(k) && |prefix| < |SplitDots(k)| :: SplitDots(k)[|prefix|]
  }

  /** The tree below `prefix`, down to `depth` levels. */
  function Grow(flat: map<string, Flat>, prefix: seq<string>, depth: nat): map<string, Tree>
    decreases depth, 0
  {
    if depth == 0 then map[]
    else map h | h in Heads(flat, prefix) :: GrowAt(flat, prefix + [h], depth - 1)
  }

  function GrowAt(flat: map<string, Flat>, path: seq<string>, depth: nat): Tree
    decreases depth, 1
  {
    if JoinPath(path) in flat then Kept(flat[JoinPath(path)]) else Branch(Grow(flat, path, depth))
  }

  ghost function Longest(flat: map<string, Flat>): (d: nat)
    ensures forall k | k in flat :: |SplitDots(k)| <= d
  {
    if flat == map[] then 0
    else
      var k :| k in flat;
      var rest := Longest(flat - {k});
      if rest < |SplitDots(k)| then |SplitDots(k)| else rest
  }

  ghost function Rebuild(flat: map<string, Flat>): map<string, Tree> {
    Grow(flat, [], Longest(flat))
  }

  ghost predicate Recovers(k: string) {
    JoinPath(SplitDots(k)) == k
  }

  ghost predicate NotAbove(k: string, l: string) {
    SplitDots(k) <= SplitDots(l) ==> k == l
  }

  /** Keys that split into paths and back, none of which goes on below another. */
  ghost predicate Regular(flat: map<string, Flat>) {
    && (forall k {:trigger Recovers(k)} | k in flat :: Recovers(k))
    && (forall k, l {:trigger NotAbove(k, l)} | k in flat && l in flat :: NotAbove(k, l))
  }

  /** A path on the way to a present key is that key's own path as soon as its joined key is present. */
  lemma KeptAt(flat: map<string, Flat>, at: seq<string>, down: string)
    requires Regular(flat) && down in flat && at <= SplitDots(down) && at != [] && JoinPath(at) in flat
    ensures JoinPath(at) == down && SplitDots(down) == at
  {
    var whole := SplitDots(down);
    assert Recovers(down) && NotAbove(JoinPath(at), down);
    PathRecoverable(whole);
    assert forall i | 0 <= i < |at| :: at[i] == whole[i];
    if at[0] == "" {
      assert at == whole;
    } else {
      PathRecoverable(at);
    }
  }

  ghost predicate KeyAt(flat: map<string, Flat>, path: seq<string>, leaf: Flat) {
    exists key | key in flat :: SplitDots(key) == path && flat[key] == leaf
  }

  lemma HeadKey(flat: map<string, Flat>, prefix: seq<string>, h: string) returns (down: string)
    requires h in Heads(flat, prefix)
    ensures down in flat && prefix + [h] <= SplitDots(down)
  {
    down :| down in flat && prefix <= SplitDots(down) && |prefix| < |SplitDots(down)|
            && SplitDots(down)[|prefix|] == h;
  }

  lemma KeyHead(flat: map<string, Flat>, prefix: seq<string>, key: string)
    requires key in flat && prefix <= SplitDots(key) && |prefix| < |SplitDots(key)|
    ensures SplitDots(key)[|prefix|] in Heads(flat, prefix)
  {
  }

  lemma HeadConcat(prefix: seq<string>, path: seq<string>)
    requires path != []
    ensures (prefix + [path[0]]) + path[1..] == prefix + path
  {
  }

  lemma GrowCons(flat: map<string, Flat>, prefix: seq<string>, depth: nat, path: seq<string>, key: string, leaf: Flat)
    requires key in flat && path != [] && SplitDots(key) == prefix + path && depth > 0
    requires TreeIn(GrowAt(flat, prefix + [path[0]], depth - 1), path[1..], leaf)
    ensures TreeAt(Grow(flat, prefix, depth), path, leaf)
  {
    GrowHead(flat, prefix, depth, path, key);
  }

  lemma {:induction false} KeyHasLeaf(
    flat: map<string, Flat>, prefix: seq<string>, depth: nat, path: seq<string>, key: string)
    requires Regular(flat) && key in flat && path != []
    requires SplitDots(key) == prefix + path && |path| <= depth
    ensures TreeAt(Grow(flat, prefix, depth), path, flat[key])
    decreases depth, 0
  {
    HeadConcat(prefix, path);
    KeyHasLeafIn(flat, prefix + [path[0]], depth - 1, path[1..], key);
    GrowCons(flat, prefix, depth, path, key, flat[key]);
  }

  lemma {:induction false} KeyHasLeafIn(
    flat: map<string, Flat>, at: seq<string>, depth: nat, path: seq<string>, key: string)
    requires Regular(flat) && key in flat && at != []
    requires SplitDots(key) == at + path && |path| <= depth
    ensures TreeIn(GrowAt(flat, at, depth), path, flat[key])
    decreases depth, 1
  {
    if path == [] {
      assert at == SplitDots(key) && Recovers(key);
    } else {
      NotKeptAbove(flat, at, key);
      KeyHasLeaf(flat, at, depth, path, key);
    }
  }

  lemma NotKeptAbove(flat: map<string, Flat>, at: seq<string>, key: string)
    requires Regular(flat) && key in flat && at != [] && at < SplitDots(key)
    ensures JoinPath(at) !in flat
  {
    if JoinPath(at) in flat {
      KeptAt(flat, at, key);
    }
  }

  lemma GrowHead(flat: map<string, Flat>, prefix: seq<string>, depth: nat, path: seq<string>, key: string)
    requires key in flat && path != [] && SplitDots(key) == prefix + path && depth > 0
    ensures path[0] in Grow(flat, prefix, depth)
    ensures Grow(flat, prefix, depth)[path[0]] == GrowAt(flat, prefix + [path[0]], depth - 1)
  {
    assert SplitDots(key)[|prefix|] == path[0];
  }

  lemma {:induction false} LeafHasKey(
    flat: map<string, Flat>, prefix: seq<string>, depth: nat, path: seq<string>, leaf: Flat)
    requires Regular(flat) && TreeAt(Grow(flat, prefix, depth), path, leaf)
    ensures KeyAt(flat, prefix + path, leaf)
    decreases depth
  {
    var h, rest := path[0], path[1..];
    var at := prefix + [h];
    HeadConcat(prefix, path);
    assert Grow(flat, prefix, depth)[h] == GrowAt(flat, at, depth - 1);
    if JoinPath(at) in flat {
      var down := HeadKey(flat, prefix, h);
      KeptAt(flat, at, down);
    } else {
      LeafHasKey(flat, at, depth - 1, rest, leaf);
    }
  }

  lemma {:induction false} GrowIsPruned(flat: map<string, Flat>, prefix: seq<string>, depth: nat)
    requires Regular(flat) && forall k | k in flat :: |SplitDots(k)| <= |prefix| + depth
    ensures AllPruned(Grow(flat, prefix, depth))
    decreases depth, 1
  {
    if depth > 0 {
      forall h | h in Heads(flat, prefix) ensures Pruned(GrowAt(flat, prefix + [h], depth - 1)) {
        var down := HeadKey(flat, prefix, h);
        GrowAtIsPruned(flat, prefix + [h], depth - 1, down);
      }
    }
  }

  lemma {:induction false} GrowAtIsPruned(flat: map<string, Flat>, at: seq<string>, depth: nat, down: string)
    requires Regular(flat) && down in flat && at <= SplitDots(down)
    requires forall k | k in flat :: |SplitDots(k)| <= |at| + depth
    ensures Pruned(GrowAt(flat, at, depth))
    decreases depth, 2
  {
    if JoinPath(at) !in flat {
      assert at != SplitDots(down) by { assert Recovers(down); }
      KeyHead(flat, at, down);
      GrowIsPruned(flat, at, depth);
      assert SplitDots(down)[|at|] in Grow(flat, at, depth);
    }
  }

  /** The flattened form of an invertible payload is regular. */
  lemma FlattenIsRegular(fields: seq<Field>)
    requires Keyed(fields) && Invertible(fields)
    ensures Regular(FlattenPayload(fields, ""))
  {
    var flat := FlattenPayload(fields, "");
    forall k | k in flat ensures Recovers(k) {
      FlattenExactly(fields, k, flat[k]);
    }
    forall k, l | k in flat && l in flat ensures NotAbove(k, l) {
      FlattenExactly(fields, k, flat[k]);
      FlattenExactly(fields, l, flat[l]);
      if SplitDots(k) <= SplitDots(l) {
        LeafEnds(fields, SplitDots(k), SplitDots(l), flat[k], flat[l]);
      }
    }
  }

  /** No leaf lies below another. */
  lemma {:induction false} LeafEnds(fields: seq<Field>, p: seq<string>, q: seq<string>, a: Flat, b: Flat)
    requires Keyed(fields) && LeafAt(fields, p, a) && LeafAt(fields, q, b) && p <= q
    ensures p == q
    decreases |p|
  {
    var i :| 0 <= i < |fields| && fields[i].key == p[0] && LeafIn(fields[i].value, p[1..], a);
    var j :| 0 <= j < |fields| && fields[j].key == q[0] && LeafIn(fields[j].value, q[1..], b);
    assert i == j && KeyedValue(fields[i].value);
    assert p == [p[0]] + p[1..] && q == [q[0]] + q[1..];
    if |p| > 1 {
      assert p[1..] <= q[1..];
      LeafEnds(fields[i].value.fields, p[1..], q[1..], a, b);
    }
  }

  ghost predicate Towards(path: seq<string>, key: string) {
    path <= SplitDots(key)
  }

  /** A path into what was rebuilt goes down towards some flattened key. */
  lemma {:induction false} GrownTowards(
    flat: map<string, Flat>, prefix: seq<string>, depth: nat, path: seq<string>, leaf: Flat) returns (down: string)
    requires TreeAt(Grow(flat, prefix, depth), path, leaf)
    ensures down in flat && Towards(prefix + path, down)
    decreases depth, 0
  {
    HeadConcat(prefix, path);
    down := GrownInTowards(flat, prefix, path[0], depth - 1, path[1..], leaf);
  }

  lemma {:induction false} GrownInTowards(
    flat: map<string, Flat>, prefix: seq<string>, h: string, depth: nat, rest: seq<string>, leaf: Flat)
    returns (down: string)
    requires h in Heads(flat, prefix) && TreeIn(GrowAt(flat, prefix + [h], depth), rest, leaf)
    ensures down in flat && Towards(prefix + [h] + rest, down)
    decreases depth, 1
  {
    if rest == [] {
      down := HeadKey(flat, prefix, h);
      assert prefix + [h] + rest == prefix + [h];
    } else {
      down := GrownTowards(flat, prefix + [h], depth, rest, leaf);
    }
  }

  lemma KeptTowards(fields: seq<Field>, path: seq<string>, leaf: Flat) returns (down: string)
    requires Keyed(fields) && LeafAt(fields, path, leaf)
    requires Rebuild(FlattenPayload(fields, "")) == Prune(fields)
    ensures down in FlattenPayload(fields, "") && path <= SplitDots(down) && DotFree(path)
  {
    var flat := FlattenPayload(fields, "");
    PruneLeaves(fields, path, leaf);
    down := GrownTowards(flat, [], Longest(flat), path, leaf);
    assert [] + path == path;
    SplitDotsDotFree(down);
    assert forall i | 0 <= i < |path| :: path[i] == SplitDots(down)[i];
  }

  /** Only invertible payloads are rebuilt. */
  lemma RebuiltIsInvertible(fields: seq<Field>)
    requires Keyed(fields) && Rebuild(FlattenPayload(fields, "")) == Prune(fields)
    ensures Invertible(fields)
  {
    forall path, leaf | LeafAt(fields, path, leaf) ensures Recoverable(path) {
      var down := KeptTowards(fields, path, leaf);
      var q := FlattenedIsLeaf(fields, down);
      var other := KeptTowards(fields, q, FlattenPayload(fields, "")[down]);
      SplitDotFreeHead(q);
    }
  }

  lemma RebuiltLeaf(fields: seq<Field>, path: seq<string>, leaf: Flat)
    requires Keyed(fields) && Invertible(fields)
    ensures TreeAt(Rebuild(FlattenPayload(fields, "")), path, leaf) <==> TreeAt(Prune(fields), path, leaf)
  {
    var flat := FlattenPayload(fields, "");
    FlattenIsRegular(fields);
    PruneLeaves(fields, path, leaf);
    assert [] + path == path;
    if TreeAt(Rebuild(flat), path, leaf) {
      LeafHasKey(flat, [], Longest(flat), path, leaf);
      var key :| key in flat && SplitDots(key) == path && flat[key] == leaf;
      FlattenExactly(fields, key, leaf);
    }
    if LeafAt(fields, path, leaf) {
      SplitJoined(path);
      LeafIsFlattened(fields, path, leaf);
      KeyHasLeaf(flat, [], Longest(flat), path, JoinPath(path));
    }
  }

  lemma InvertibleIsRebuilt(fields: seq<Field>)
    requires Keyed(fields) && Invertible(fields)
    ensures Rebuild(FlattenPayload(fields, "")) == Prune(fields)
  {
    var flat := FlattenPayload(fields, "");
    FlattenIsRegular(fields);
    GrowIsPruned(flat, [], Longest(flat));
    PruneIsPruned(fields);
    forall path, leaf ensures TreeAt(Rebuild(flat), path, leaf) <==> TreeAt(Prune(fields), path, leaf) {
      RebuiltLeaf(fields, path, leaf);
    }
    SameForest(Rebuild(flat), Prune(fields));
  }

  /**
   The pruned tree of a payload is rebuilt from its flattened form exactly when the path of each of its leaves is
   dot-free and has no empty first component before others.
   */
  lemma RoundTrip(fields: seq<Field>)
    requires Keyed(fields)
    ensures Rebuild(FlattenPayload(fields, "")) == Prune(fields) <==> Invertible(fields)
  {
    if Rebuild(FlattenPayload(fields, "")) == Prune(fields) {
      RebuiltIsInvertible(fields);
    }
    if Invertible(fields) {
      InvertibleIsRebuilt(fields);
    }
  }

  lemma SameTreesFlatten(a: seq<Field>, b: seq<Field>, key: string)
    requires Keyed(a) && Invertible(a) && Keyed(b) && Invertible(b)
    requires Prune(a) == Prune(b) && key in FlattenPayload(a, "")
    ensures Lookup(FlattenPayload(b, ""), key) == Some(FlattenPayload(a, "")[key])
  {
    var leaf := FlattenPayload(a, "")[key];
    assert Lookup(FlattenPayload(a, ""), key) == Some(leaf);
    FlattenExactly(a, key, leaf);
    PruneLeaves(a, SplitDots(key), leaf);
    PruneLeaves(b, SplitDots(key), leaf);
    FlattenExactly(b, key, leaf);
  }

  /** Two invertible payloads flatten to the same map exactly when they agree up to pruning and the order of keys. */
  lemma FlattenInjective(a: seq<Field>, b: seq<Field>)
    requires Keyed(a) && Invertible(a) && Keyed(b) && Invertible(b)
    ensures FlattenPayload(a, "") == FlattenPayload(b, "") <==> Prune(a) == Prune(b)
  {
    var fa, fb := FlattenPayload(a, ""), FlattenPayload(b, "");
    if Prune(a) == Prune(b) {
      forall key | key in fa ensures key in fb && fa[key] == fb[key] {
        SameTreesFlatten(a, b, key);
      }
      forall key | key in fb ensures key in fa {
        SameTreesFlatten(b, a, key);
      }
      assert fa == fb;
    } else {
      InvertibleIsRebuilt(a);
      InvertibleIsRebuilt(b);
    }
  }

  // Payloads that are not.

  /** A value under one key, or under two keys one inside the other. */
  function Flatly(key: string, v: Value): seq<Field> {
    [Field(key, v)]
  }

  function Nested(outer: string, inner: string, v: Value): seq<Field> {
    [Field(outer, Object([Field(inner, v)]))]
  }

  lemma OneField(key: string, v: Value, path: string)
    ensures FlattenPayload([Field(key, v)], path) == ObjectToMerge(v, NewPath(path, key))
    ensures Prune([Field(key, v)])
         == match PruneValue(v) { case Some(t) => map[key := t] case None => map[] }
  {
    assert [Field(key, v)][..0] == [];
  }

  lemma NestedShapes(outer: string, inner: string, v: Value)
    requires v.Prim? && !IsZeroValue(v.p)
    ensures FlattenPayload(Nested(outer, inner, v), "") == map[NewPath(outer, inner) := Scalar(v.p)]
    ensures Prune(Nested(outer, inner, v)) == map[outer := Branch(map[inner := Kept(Scalar(v.p))])]
  {
    OneField(inner, v, outer);
    assert inner in Prune([Field(inner, v)]);
    OneField(outer, Object([Field(inner, v)]), "");
  }

  lemma FlatShapes(key: string, v: Value)
    requires v.Prim? && !IsZeroValue(v.p)
    ensures FlattenPayload(Flatly(key, v), "") == map[key := Scalar(v.p)]
    ensures Prune(Flatly(key, v)) == map[key := Kept(Scalar(v.p))]
  {
    OneField(key, v, "");
  }

  /** A dotted key, and an empty key around others, flatten to what other payloads flatten to. */
  lemma FlattenLoses(v: Value)
    requires v.Prim? && !IsZeroValue(v.p)
    ensures FlattenPayload(Flatly("a.b", v), "") == FlattenPayload(Nested("a", "b", v), "")
    ensures Prune(Flatly("a.b", v)) != Prune(Nested("a", "b", v))
    ensures FlattenPayload(Flatly("b", v), "") == FlattenPayload(Nested("", "b", v), "")
    ensures Prune(Flatly("b", v)) != Prune(Nested("", "b", v))
  {
    FlatShapes("a.b", v);
    FlatShapes("b", v);
    NestedShapes("a", "b", v);
    NestedShapes("", "b", v);
    assert "a" + "." + "b" == "a.b";
    assert "b" in Prune(Flatly("b", v)) && "b" !in Prune(Nested("", "b", v));
    assert "a" in Prune(Nested("a", "b", v)) && "a" !in Prune(Flatly("a.b", v));
  }
}
