/** Scans of a list by a string key, and the three kinds of map the cache builds from a list. */
module Lists {
  import opened Wrappers

  /** The records of `s` whose key is `k`, in list order. */
  function With<T>(s: seq<T>, key: T -> string, k: string): seq<T> {
    if s == [] then []
    else
      var n := |s| - 1;
      if key(s[n]) == k then With(s[..n], key, k) + [s[n]] else With(s[..n], key, k)
  }

  /** The earliest record of `s` whose key is `k`. */
  function FirstWith<T>(s: seq<T>, key: T -> string, k: string): (r: Option<T>)
    ensures r.Some? <==> exists i :: 0 <= i < |s| && key(s[i]) == k
    ensures r.Some? ==> key(r.value) == k
  {
    if s == [] then None
    else
      var n := |s| - 1;
      var r := FirstWith(s[..n], key, k);
      if r.Some? then r else if key(s[n]) == k then Some(s[n]) else None
  }

  /** The latest record of `s` whose key is `k`. */
  function LastWith<T>(s: seq<T>, key: T -> string, k: string): (r: Option<T>)
    ensures r.Some? <==> exists i :: 0 <= i < |s| && key(s[i]) == k
    ensures r.Some? ==> key(r.value) == k
  {
    if s == [] then None
    else
      var n := |s| - 1;
      if key(s[n]) == k then Some(s[n]) else LastWith(s[..n], key, k)
  }

  lemma {:induction false} FirstWithAt<T>(s: seq<T>, key: T -> string, k: string) returns (i: nat)
    requires FirstWith(s, key, k).Some?
    ensures i < |s| && s[i] == FirstWith(s, key, k).value
    ensures forall j :: 0 <= j < i ==> key(s[j]) != k
  {
    var n := |s| - 1;
    if FirstWith(s[..n], key, k).Some? {
      i := FirstWithAt(s[..n], key, k);
      assert s[i] == s[..n][i];
      assert forall j :: 0 <= j < i ==> s[j] == s[..n][j];
    } else {
      i := n;
      assert forall j :: 0 <= j < i ==> s[j] == s[..n][j];
    }
  }

  lemma {:induction false} LastWithAt<T>(s: seq<T>, key: T -> string, k: string) returns (i: nat)
    requires LastWith(s, key, k).Some?
    ensures i < |s| && s[i] == LastWith(s, key, k).value
    ensures forall j :: i < j < |s| ==> key(s[j]) != k
  {
    var n := |s| - 1;
    if key(s[n]) == k {
      i := n;
    } else {
      i := LastWithAt(s[..n], key, k);
      assert forall j :: i < j < n ==> s[j] == s[..n][j];
    }
  }

  lemma Associative<T>(x: seq<T>, y: seq<T>, z: seq<T>)
    ensures (x + y) + z == x + (y + z)
  {
  }

  lemma PrefixSnoc<T>(s: seq<T>, n: nat)
    requires n < |s|
    ensures s[..n + 1] == s[..n] + [s[n]]
  {
  }

  lemma ConcatSnoc<T>(a: seq<T>, b: seq<T>)
    requires b != []
    ensures a + b == (a + b[..|b| - 1]) + [b[|b| - 1]]
  {
  }

  /** `f` applied to every record, in order. */
  function Map<T, V>(s: seq<T>, f: T -> V): (r: seq<V>)
    ensures |r| == |s|
    ensures forall i :: 0 <= i < |s| ==> r[i] == f(s[i])
  {
    seq(|s|, i requires 0 <= i < |s| => f(s[i]))
  }

  /** The values of the records of `s` whose key is `k`, in list order. */
  function Group<T, V>(s: seq<T>, key: T -> string, val: T -> V, k: string): seq<V> {
    Map(With(s, key, k), val)
  }

  // The maps that the cache's loops build, one record at a time.

  /** A later record replaces an earlier one with the same key. */
  function LastMap<T, V>(s: seq<T>, key: T -> string, val: T -> V): map<string, V> {
    if s == [] then map[]
    else
      var n := |s| - 1;
      LastMap(s[..n], key, val)[key(s[n]) := val(s[n])]
  }

  /** A later record is dropped when its key is already there. */
  function FirstMap<T, V>(s: seq<T>, key: T -> string, val: T -> V): map<string, V> {
    if s == [] then map[]
    else
      var n := |s| - 1;
      var m := FirstMap(s[..n], key, val);
      if key(s[n]) in m then m else m[key(s[n]) := val(s[n])]
  }

  /** A later record is appended to the slice of its key. */
  function GroupMap<T, V>(s: seq<T>, key: T -> string, val: T -> V): map<string, seq<V>> {
    if s == [] then map[]
    else
      var n := |s| - 1;
      var m := GroupMap(s[..n], key, val);
      m[key(s[n]) := Slice(m, key(s[n])) + [val(s[n])]]
  }

  lemma {:induction false} WithMembers<T>(s: seq<T>, key: T -> string, k: string, x: T)
    ensures x in With(s, key, k) <==> x in s && key(x) == k
  {
    if s != [] {
      var n := |s| - 1;
      assert s == s[..n] + [s[n]];
      WithMembers(s[..n], key, k, x);
    }
  }

  lemma GroupSnoc<T, V>(s: seq<T>, x: T, key: T -> string, val: T -> V, k: string)
    ensures Group(s + [x], key, val, k) == Group(s, key, val, k) + (if key(x) == k then [val(x)] else [])
  {
    assert (s + [x])[..|s|] == s;
    assert Map(With(s, key, k) + [x], val) == Map(With(s, key, k), val) + [val(x)];
  }

  lemma FirstSnoc<T>(s: seq<T>, x: T, key: T -> string, k: string)
    ensures FirstWith(s + [x], key, k)
         == if FirstWith(s, key, k).Some? then FirstWith(s, key, k) else if key(x) == k then Some(x) else None
  {
    assert (s + [x])[..|s|] == s;
  }

  lemma MapSnoc<T, V>(s: seq<T>, x: T, f: T -> V)
    ensures Map(s + [x], f) == Map(s, f) + [f(x)]
  {
  }

  ghost predicate Increasing(at: seq<nat>) {
    forall i, j | 0 <= i < j < |at| :: at[i] < at[j]
  }

  ghost predicate Here<T>(s: seq<T>, p: T -> bool, j: nat) {
    j < |s| && p(s[j])
  }

  /** `at` lists, in order, the positions of the records of `s` for which `p` holds. */
  ghost predicate PositionsOf<T>(at: seq<nat>, s: seq<T>, p: T -> bool) {
    && Increasing(at)
    && (forall i | 0 <= i < |at| :: Here(s, p, at[i]))
    && (forall j: nat | Here(s, p, j) :: j in at)
  }

  lemma SamePositions<T>(at: seq<nat>, s: seq<T>, p: T -> bool, q: T -> bool)
    requires PositionsOf(at, s, p) && forall j | 0 <= j < |s| :: p(s[j]) == q(s[j])
    ensures PositionsOf(at, s, q)
  {
    forall i | 0 <= i < |at| ensures Here(s, q, at[i]) {
      assert Here(s, p, at[i]);
    }
    forall j: nat | Here(s, q, j) ensures j in at {
      assert Here(s, p, j);
    }
  }

  lemma NextPosition<T>(at: seq<nat>, s: seq<T>, x: T, p: T -> bool)
    requires PositionsOf(at, s, p)
    ensures PositionsOf(if p(x) then at + [|s|] else at, s + [x], p)
  {
    var next := if p(x) then at + [|s|] else at;
    forall i | 0 <= i < |next| ensures Here(s + [x], p, next[i]) {
      assert i < |at| ==> Here(s, p, at[i]);
    }
    forall j: nat | Here(s + [x], p, j) ensures j in next {
      assert j < |s| ==> Here(s, p, j);
    }
    forall i, j | 0 <= i < j < |next| ensures next[i] < next[j] {
      assert Here(s, p, at[i]);
    }
  }

  ghost predicate ValuesAt<T, V>(at: seq<nat>, s: seq<T>, val: T -> V, values: seq<V>) {
    |values| == |at| && forall i | 0 <= i < |at| :: at[i] < |s| && values[i] == val(s[at[i]])
  }

  lemma NextValue<T, V>(at: seq<nat>, s: seq<T>, x: T, val: T -> V, values: seq<V>)
    requires ValuesAt(at, s, val, values)
    ensures ValuesAt(at, s + [x], val, values)
    ensures ValuesAt(at + [|s|], s + [x], val, values + [val(x)])
  {
  }

  lemma NextGrouped<T, V>(at: seq<nat>, s: seq<T>, x: T, key: T -> string, val: T -> V, k: string)
    requires PositionsOf(at, s, (y: T) => key(y) == k) && ValuesAt(at, s, val, Group(s, key, val, k))
    ensures var next := if key(x) == k then at + [|s|] else at;
            PositionsOf(next, s + [x], (y: T) => key(y) == k)
            && ValuesAt(next, s + [x], val, Group(s + [x], key, val, k))
  {
    NextPosition(at, s, x, (y: T) => key(y) == k);
    NextValue(at, s, x, val, Group(s, key, val, k));
    GroupSnoc(s, x, key, val, k);
    assert Group(s, key, val, k) + [] == Group(s, key, val, k);
  }

  /** A group is made of the records at these positions and of no others, one value for each, in order. */
  lemma {:induction false} GroupAt<T, V>(s: seq<T>, key: T -> string, val: T -> V, k: string) returns (at: seq<nat>)
    ensures PositionsOf(at, s, (x: T) => key(x) == k)
    ensures ValuesAt(at, s, val, Group(s, key, val, k))
  {
    if s == [] {
      at := [];
    } else {
      var before, x := s[..|s| - 1], s[|s| - 1];
      assert s == before + [x];
      at := GroupAt(before, key, val, k);
      NextGrouped(at, before, x, key, val, k);
      at := if key(x) == k then at + [|before|] else at;
    }
  }

  /** Grouping partitions: every value is counted in the group of its own key and in no other. */
  lemma {:induction false} GroupCount<T, V>(
    s: seq<T>, key: T -> string, val: T -> V, keyOf: V -> string, k: string, v: V)
    requires forall x | x in s :: keyOf(val(x)) == key(x)
    ensures multiset(Group(s, key, val, k))[v] == if keyOf(v) == k then multiset(Map(s, val))[v] else 0
  {
    if s != [] {
      var n := |s| - 1;
      assert s == s[..n] + [s[n]];
      GroupCount(s[..n], key, val, keyOf, k, v);
      GroupSnoc(s[..n], s[n], key, val, k);
      MapSnoc(s[..n], s[n], val);
    }
  }

  lemma MapConcat<T, V>(a: seq<T>, b: seq<T>, f: T -> V)
    ensures Map(a + b, f) == Map(a, f) + Map(b, f)
  {
  }

  /** A record found in a prefix is found in the whole list. */
  lemma {:induction false} FirstWithKept<T>(s: seq<T>, key: T -> string, k: string, n: nat)
    requires n <= |s| && FirstWith(s[..n], key, k).Some?
    ensures FirstWith(s, key, k) == FirstWith(s[..n], key, k)
    decreases |s|
  {
    if n < |s| {
      assert s[..|s| - 1][..n] == s[..n];
      FirstWithKept(s[..|s| - 1], key, k, n);
    } else {
      assert s[..n] == s;
    }
  }

  // Reading each kind of map is a scan of the list it was built from.

  lemma {:induction false} LastMapReads<T, V>(s: seq<T>, key: T -> string, val: T -> V, k: string)
    ensures Lookup(LastMap(s, key, val), k)
         == match LastWith(s, key, k) { case Some(x) => Some(val(x)) case None => None }
  {
    if s != [] {
      LastMapReads(s[..|s| - 1], key, val, k);
    }
  }

  lemma {:induction false} FirstMapReads<T, V>(s: seq<T>, key: T -> string, val: T -> V, k: string)
    ensures Lookup(FirstMap(s, key, val), k)
         == match FirstWith(s, key, k) { case Some(x) => Some(val(x)) case None => None }
  {
    if s != [] {
      FirstMapReads(s[..|s| - 1], key, val, k);
    }
  }

  lemma {:induction false} GroupMapReads<T, V>(s: seq<T>, key: T -> string, val: T -> V, k: string)
    ensures Slice(GroupMap(s, key, val), k) == Group(s, key, val, k)
    ensures k in GroupMap(s, key, val) <==> FirstWith(s, key, k).Some?
  {
    if s != [] {
      var n := |s| - 1;
      GroupMapReads(s[..n], key, val, k);
      GroupSnoc(s[..n], s[n], key, val, k);
      assert s[..n] + [s[n]] == s;
    }
  }

  lemma GroupMember<T, V>(s: seq<T>, key: T -> string, val: T -> V, k: string, i: nat)
    returns (j: nat)
    requires i < |Group(s, key, val, k)|
    ensures j < |s| && key(s[j]) == k && val(s[j]) == Group(s, key, val, k)[i]
  {
    var x := With(s, key, k)[i];
    WithMembers(s, key, k, x);
    j :| 0 <= j < |s| && s[j] == x;
  }

  lemma GroupHolds<T, V>(s: seq<T>, key: T -> string, val: T -> V, x: T)
    requires x in s
    ensures val(x) in Group(s, key, val, key(x))
  {
    WithMembers(s, key, key(x), x);
    var i :| 0 <= i < |With(s, key, key(x))| && With(s, key, key(x))[i] == x;
    assert Group(s, key, val, key(x))[i] == val(x);
  }
}
