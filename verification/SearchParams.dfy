/** The name-value pairs rendered from a flattened payload, before URL encoding. */
module SearchParams {
  import opened Wrappers
  import opened Lists
  import opened Flatten

  type Pair = (string, string)

  /** A parameter already in the URL path is dropped; the empty name is found there but does not count as found. */
  predicate InPath(urlPathParams: seq<string>, key: string) {
    key != "" && key in urlPathParams
  }

  /** How each value becomes text. */
  type Show = Primitive -> string

  function PairsOf(key: string, value: Flat, show: Show): seq<Pair> {
    match value
    case Scalar(p) => [(key, show(p))]
    case Many(ps) => seq(|ps|, i requires 0 <= i < |ps| => (key, show(ps[i])))
  }

  /** The pairs for the flattened keys in the order `keys` lists them. */
  function Pairs(flat: map<string, Flat>, keys: seq<string>, urlPathParams: seq<string>, show: Show): seq<Pair>
    requires forall i | 0 <= i < |keys| :: keys[i] in flat
  {
    if keys == [] then []
    else
      var n := |keys| - 1;
      assert forall i | 0 <= i < n :: keys[..n][i] == keys[i];
      Pairs(flat, keys[..n], urlPathParams, show)
      + (if InPath(urlPathParams, keys[n]) then [] else PairsOf(keys[n], flat[keys[n]], show))
  }

  /** `keys` lists every flattened key once, in whatever order. */
  ghost predicate Enumerates(keys: seq<string>, flat: map<string, Flat>) {
    && (forall i | 0 <= i < |keys| :: keys[i] in flat)
    && (forall k | k in flat :: k in keys)
    && (forall i, j | 0 <= i < j < |keys| :: keys[i] != keys[j])
  }

  function Shown(value: Flat, show: Show): seq<string> {
    match value
    case Scalar(p) => [show(p)]
    case Many(ps) => seq(|ps|, i requires 0 <= i < |ps| => show(ps[i]))
  }

  lemma {:induction false} TaggedCount(texts: seq<string>, pairs: seq<Pair>, key: string, p: Pair)
    requires |pairs| == |texts| && forall i | 0 <= i < |pairs| :: pairs[i] == (key, texts[i])
    ensures multiset(pairs)[p] == if p.0 == key then multiset(texts)[p.1] else 0
    decreases |texts|
  {
    if texts != [] {
      var n := |texts| - 1;
      assert texts == texts[..n] + [texts[n]] && pairs == pairs[..n] + [pairs[n]];
      TaggedCount(texts[..n], pairs[..n], key, p);
    }
  }

  lemma PairsOfCount(key: string, value: Flat, show: Show, p: Pair)
    ensures multiset(PairsOf(key, value, show))[p]
         == if p.0 == key then multiset(Shown(value, show))[p.1] else 0
  {
    TaggedCount(Shown(value, show), PairsOf(key, value, show), key, p);
  }

  lemma {:induction false} PairsCount(
    flat: map<string, Flat>, keys: seq<string>, urlPathParams: seq<string>, show: Show, p: Pair)
    requires forall i | 0 <= i < |keys| :: keys[i] in flat
    requires forall i, j | 0 <= i < j < |keys| :: keys[i] != keys[j]
    ensures multiset(Pairs(flat, keys, urlPathParams, show))[p]
         == if p.0 in keys && !InPath(urlPathParams, p.0) then multiset(Shown(flat[p.0], show))[p.1] else 0
  {
    if keys != [] {
      var n := |keys| - 1;
      assert keys == keys[..n] + [keys[n]];
      assert forall i | 0 <= i < n :: keys[..n][i] == keys[i];
      PairsCount(flat, keys[..n], urlPathParams, show, p);
      PairsOfCount(keys[n], flat[keys[n]], show, p);
    }
  }

  /** How many pairs with this text a value contributes: for a scalar one, for an array one per element. */
  function TimesShown(value: Flat, show: Show, text: string): nat {
    match value
    case Scalar(p) => if text == show(p) then 1 else 0
    case Many(ps) => multiset(Map(ps, show))[text]
  }

  /** A flattened key is left out when it is a parameter of the URL path, unless it is empty. */
  ghost predicate LeftOut(urlPathParams: seq<string>, key: string) {
    key != "" && exists i :: 0 <= i < |urlPathParams| && urlPathParams[i] == key
  }

  /**
   Whatever order the flattened keys are listed in, each scalar contributes one pair and each array one pair per
   element, for exactly the keys that are not in the URL path.
   */
  lemma RenderedPairs(fields: seq<Field>, keys: seq<string>, urlPathParams: seq<string>, show: Show, p: Pair)
    requires Enumerates(keys, FlattenPayload(fields, ""))
    ensures var flat := FlattenPayload(fields, "");
            multiset(Pairs(flat, keys, urlPathParams, show))[p]
            == if p.0 !in flat || LeftOut(urlPathParams, p.0) then 0
               else TimesShown(flat[p.0], show, p.1)
  {
    var flat := FlattenPayload(fields, "");
    PairsCount(flat, keys, urlPathParams, show, p);
    if p.0 in flat && flat[p.0].Many? {
      assert Shown(flat[p.0], show) == Map(flat[p.0].ps, show);
    }
  }

  function NameOf(p: Pair): string { p.0 }

  lemma {:induction false} WithConcat<T>(a: seq<T>, b: seq<T>, key: T -> string, k: string)
    ensures With(a + b, key, k) == With(a, key, k) + With(b, key, k)
  {
    if b == [] {
      assert a + b == a;
    } else {
      var n := |b| - 1;
      assert (a + b)[..|a| + n] == a + b[..n];
      WithConcat(a, b[..n], key, k);
    }
  }

  lemma {:induction false} AllWith<T>(s: seq<T>, key: T -> string, k: string, all: bool)
    requires forall x | x in s :: (key(x) == k) == all
    ensures With(s, key, k) == if all then s else []
  {
    if s != [] {
      var n := |s| - 1;
      assert s == s[..n] + [s[n]];
      AllWith(s[..n], key, k, all);
    }
  }

  lemma PairsOfNamed(key: string, value: Flat, show: Show, k: string)
    ensures With(PairsOf(key, value, show), NameOf, k) == if key == k then PairsOf(key, value, show) else []
  {
    AllWith(PairsOf(key, value, show), NameOf, k, key == k);
  }

  lemma {:induction false} PairsNamed(
    flat: map<string, Flat>, keys: seq<string>, urlPathParams: seq<string>, show: Show, k: string)
    requires forall i | 0 <= i < |keys| :: keys[i] in flat
    requires forall i, j | 0 <= i < j < |keys| :: keys[i] != keys[j]
    ensures With(Pairs(flat, keys, urlPathParams, show), NameOf, k)
         == if k in keys && !InPath(urlPathParams, k) then PairsOf(k, flat[k], show) else []
  {
    if keys != [] {
      var n := |keys| - 1;
      var last := keys[n];
      assert keys == keys[..n] + [last];
      assert forall i | 0 <= i < n :: keys[..n][i] == keys[i];
      PairsNamed(flat, keys[..n], urlPathParams, show, k);
      var rest := Pairs(flat, keys[..n], urlPathParams, show);
      if InPath(urlPathParams, last) {
        assert rest + [] == rest;
      } else {
        WithConcat(rest, PairsOf(last, flat[last], show), NameOf, k);
        PairsOfNamed(last, flat[last], show, k);
      }
    }
  }

  /** One pair for a scalar, and one per element for an array, in order. */
  ghost predicate RenderedAs(pairs: seq<Pair>, key: string, value: Flat, show: Show) {
    match value
    case Scalar(p) => pairs == [(key, show(p))]
    case Many(ps) => |pairs| == |ps| && forall i | 0 <= i < |ps| :: pairs[i] == (key, show(ps[i]))
  }

  /** The pairs of one name are those of its value, and the elements of an array stay in order. */
  lemma RenderedInOrder(fields: seq<Field>, keys: seq<string>, urlPathParams: seq<string>, show: Show, k: string)
    requires Enumerates(keys, FlattenPayload(fields, ""))
    ensures var flat := FlattenPayload(fields, "");
            var named := With(Pairs(flat, keys, urlPathParams, show), NameOf, k);
            if k !in flat || LeftOut(urlPathParams, k) then named == []
            else RenderedAs(named, k, flat[k], show)
  {
    PairsNamed(FlattenPayload(fields, ""), keys, urlPathParams, show, k);
  }

  /** One of the texts that a leaf is rendered as. */
  ghost predicate Renders(leaf: Flat, show: Show, text: string) {
    match leaf
    case Scalar(v) => text == show(v)
    case Many(vs) => exists i :: 0 <= i < |vs| && text == show(vs[i])
  }

  /** For an invertible payload, the pairs come from its leaves, each from the one its name splits into. */
  lemma RenderedLeaves(fields: seq<Field>, keys: seq<string>, urlPathParams: seq<string>, show: Show, p: Pair)
    requires Keyed(fields) && Invertible(fields) && Enumerates(keys, FlattenPayload(fields, ""))
    ensures p in Pairs(FlattenPayload(fields, ""), keys, urlPathParams, show)
       <==> !LeftOut(urlPathParams, p.0) && JoinPath(SplitDots(p.0)) == p.0 &&
            exists leaf :: LeafAt(fields, SplitDots(p.0), leaf) && Renders(leaf, show, p.1)
  {
    var flat := FlattenPayload(fields, "");
    PairsCount(flat, keys, urlPathParams, show, p);
    assert p in Pairs(flat, keys, urlPathParams, show)
      <==> p in multiset(Pairs(flat, keys, urlPathParams, show));
    if p.0 in flat {
      FlattenExactly(fields, p.0, flat[p.0]);
      ShownRenders(flat[p.0], show, p.1);
    }
    forall leaf | LeafAt(fields, SplitDots(p.0), leaf) && JoinPath(SplitDots(p.0)) == p.0
      ensures Lookup(flat, p.0) == Some(leaf)
    {
      FlattenExactly(fields, p.0, leaf);
    }
  }

  lemma ShownRenders(leaf: Flat, show: Show, text: string)
    ensures text in multiset(Shown(leaf, show)) <==> Renders(leaf, show, text)
  {
    assert text in multiset(Shown(leaf, show)) <==> text in Shown(leaf, show);
    if leaf.Many? && Renders(leaf, show, text) {
      var i :| 0 <= i < |leaf.ps| && text == show(leaf.ps[i]);
      assert Shown(leaf, show)[i] == text;
    }
  }
}
