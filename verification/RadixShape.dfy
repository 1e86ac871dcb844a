/**
 The shape of a well-formed radix tree is determined by its keys: its nodes sit exactly at
 the longest common prefixes of pairs of keys.
 */
module RadixShape {
  import opened RadixTree

  function Common(a: string, b: string): string {
    a[..CommonLength(a, b)]
  }

  /** Whether a node of `t` sits at `path`; the empty path is `t` itself. */
  ghost predicate IsNode<T>(t: Tree<T>, path: string)
    decreases t
  {
    path == "" ||
    exists i :: 0 <= i < |t.children| && NodeVia(t, i, path)
  }

  ghost predicate NodeVia<T>(t: Tree<T>, i: nat, path: string)
    requires i < |t.children|
    decreases t, 0
  {
    t.children[i].prefix <= path && IsNode(t.children[i], path[|t.children[i].prefix|..])
  }

  ghost predicate IsCommonPrefix(keys: set<string>, path: string) {
    exists a, b :: a in keys && b in keys && Common(a, b) == path
  }

  lemma {:induction false} CommonBehind(p: string, a: string, b: string)
    ensures Common(p + a, p + b) == p + Common(a, b)
  {
    if p == "" {
      assert p + a == a && p + b == b;
    } else {
      CommonBehind(p[1..], a, b);
      assert (p + a)[1..] == p[1..] + a && (p + b)[1..] == p[1..] + b;
      assert p == [p[0]] + p[1..];
    }
  }

  /** A key of a child is a key of the node, behind the child's prefix. */
  lemma KeyOfChild<T>(t: Tree<T>, i: nat, k: string)
    requires DistinctHeads(t) && i < |t.children| && k in Contents(t.children[i])
    ensures t.children[i].prefix + k in Contents(t)
  {
    hide Contents;
    var key := t.children[i].prefix + k;
    assert key[|t.children[i].prefix|..] == k;
    LookupIn(t, i, key);
  }

  /** Every nonempty key of a node comes from the child with its first character. */
  lemma ChildOfKey<T>(t: Tree<T>, key: string) returns (i: nat)
    requires DistinctHeads(t) && key != "" && key in Contents(t)
    ensures i < |t.children| && t.children[i].prefix[0] == key[0] && Holds(t, i, key)
  {
    hide Contents;
    if j :| 0 <= j < |t.children| && t.children[j].prefix[0] == key[0] {
      LookupIn(t, j, key);
      return j;
    }
    LookupNone(t, key);
    assert false;
  }

  lemma {:induction false} SomeKey<T>(t: Tree<T>) returns (k: string)
    requires Earned(t) && WellFormed(t)
    ensures k in Contents(t)
    decreases t
  {
    hide Contents;
    if t.value.Some? {
      LookupHere(t);
      return "";
    }
    var k' := SomeKey(t.children[0]);
    KeyOfChild(t, 0, k');
    return t.children[0].prefix + k';
  }

  lemma {:induction false} NodeIsCommonPrefix<T>(t: Tree<T>, path: string) returns (a: string, b: string)
    requires WellFormed(t) && IsNode(t, path) && (path != "" || Earned(t))
    ensures a in Contents(t) && b in Contents(t) && Common(a, b) == path
    decreases t
  {
    hide Contents;
    if path == "" {
      if t.value.Some? {
        LookupHere(t);
        return "", "";
      }
      var k0 := SomeKey(t.children[0]);
      var k1 := SomeKey(t.children[1]);
      KeyOfChild(t, 0, k0);
      KeyOfChild(t, 1, k1);
      return t.children[0].prefix + k0, t.children[1].prefix + k1;
    }
    var i :| 0 <= i < |t.children| && NodeVia(t, i, path);
    var p := t.children[i].prefix;
    a, b := NodeIsCommonPrefix(t.children[i], path[|p|..]);
    KeyOfChild(t, i, a);
    KeyOfChild(t, i, b);
    CommonBehind(p, a, b);
    assert path == p + path[|p|..];
    a, b := p + a, p + b;
  }

  lemma {:induction false} CommonPrefixIsNode<T>(t: Tree<T>, a: string, b: string)
    requires WellFormed(t) && a in Contents(t) && b in Contents(t)
    ensures IsNode(t, Common(a, b))
    decreases t
  {
    hide Contents;
    var path := Common(a, b);
    if path != "" {
      var i := ChildOfKey(t, a);
      var c := t.children[i];
      LookupIn(t, i, b);
      var a', b' := a[|c.prefix|..], b[|c.prefix|..];
      CommonPrefixIsNode(c, a', b');
      assert a == c.prefix + a' && b == c.prefix + b';
      CommonBehind(c.prefix, a', b');
      assert path[|c.prefix|..] == Common(a', b');
      assert NodeVia(t, i, path);
    }
  }

  /** Node paths are exactly the longest common prefixes of pairs of keys. */
  lemma CanonicalShape<T>(t: Tree<T>, path: string)
    requires WellFormed(t) && (path != "" || Earned(t))
    ensures IsNode(t, path) <==> IsCommonPrefix(Contents(t).Keys, path)
  {
    hide Contents;
    if IsNode(t, path) {
      var a, b := NodeIsCommonPrefix(t, path);
    }
    if IsCommonPrefix(Contents(t).Keys, path) {
      var a, b :| a in Contents(t).Keys && b in Contents(t).Keys && Common(a, b) == path;
      CommonPrefixIsNode(t, a, b);
    }
  }

  /** Two trees with the same keys have the same nodes, however they were built. */
  lemma SameKeysSameShape<T, U>(t: Tree<T>, u: Tree<U>, path: string)
    requires WellFormed(t) && WellFormed(u) && Contents(t).Keys == Contents(u).Keys
    ensures IsNode(t, path) <==> IsNode(u, path)
  {
    hide Contents;
    if path != "" {
      CanonicalShape(t, path);
      CanonicalShape(u, path);
    }
  }

  // ---------------------------------------------------------------- counting nodes

  /** The number of nodes below `t`, not counting `t`. */
  function NodesBelow<T>(t: Tree<T>): nat
    decreases t, |t.children| + 1
  {
    NodesUnder(t, |t.children|)
  }

  /** The number of nodes in the first `n` children of `t`. */
  function NodesUnder<T>(t: Tree<T>, n: nat): nat
    requires n <= |t.children|
    decreases t, n
  {
    if n == 0 then 0 else NodesUnder(t, n - 1) + 1 + NodesBelow(t.children[n - 1])
  }

  lemma PrefixedSize<T>(p: string, m: map<string, T>)
    ensures |Prefixed(p, m)| == |m|
    decreases |m|
  {
    hide Prefixed;
    if m == map[] {
      assert Prefixed(p, m) == map[];
    } else {
      var k :| k in m;
      var m' := m - {k};
      PrefixedSize(p, m');
      assert m == m'[k := m[k]];
      PrefixedUpdate(p, m', k, m[k]);
      assert p + k !in Prefixed(p, m');
    }
  }

  lemma DisjointSize<T>(a: map<string, T>, b: map<string, T>)
    requires a.Keys !! b.Keys
    ensures |a + b| == |a| + |b|
  {
    assert (a + b).Keys == a.Keys + b.Keys;
    assert |a.Keys| == |a| && |b.Keys| == |b| && |(a + b).Keys| == |a + b|;
  }

  /** The shares of distinct children do not meet. */
  lemma ShareIsNew<T>(t: Tree<T>, n: nat)
    requires DistinctHeads(t) && n < |t.children|
    ensures Union(Parts(t)[..n]).Keys !! Share(t.children[n]).Keys
  {
    hide Contents, Prefixed, Union;
    var parts := Parts(t);
    forall k | k in Share(t.children[n]) ensures k !in Union(parts[..n]) {
      forall i | 0 <= i < n ensures !In(parts[..n][i], k) {
        assert parts[i].0[0] != t.children[n].prefix[0] == k[0];
      }
      UnionOf(parts[..n], k);
    }
  }

  lemma UnionSizeStep<T>(parts: seq<(string, map<string, T>)>, a: (string, map<string, T>))
    requires Union(parts).Keys !! Prefixed(a.0, a.1).Keys
    ensures |Union(parts + [a])| == |Union(parts)| + |a.1|
  {
    hide Prefixed, Union;
    UnionAppend(parts, a);
    DisjointSize(Union(parts), Prefixed(a.0, a.1));
    PrefixedSize(a.0, a.1);
  }

  lemma PartAt<T>(t: Tree<T>, n: nat)
    requires n < |t.children|
    ensures Parts(t)[n] == (t.children[n].prefix, Contents(t.children[n]))
  {
  }

  lemma NextShareSize<T>(t: Tree<T>, n: nat)
    requires DistinctHeads(t) && n < |t.children|
    ensures |Union(Parts(t)[..n + 1])| == |Union(Parts(t)[..n])| + |Contents(t.children[n])|
  {
    hide *;
    var before, a, after := Parts(t)[..n], Parts(t)[n], Parts(t)[..n + 1];
    PartAt(t, n);
    assert after == before + [a];
    assert Union(before).Keys !! Prefixed(a.0, a.1).Keys by {
      ShareIsNew(t, n);
      ShareIs(t.children[n]);
    }
    UnionSizeStep(before, a);
  }

  lemma ShareIs<T>(c: Tree<T>)
    ensures Share(c) == Prefixed(c.prefix, Contents(c))
  {
  }

  lemma {:induction false} NodesUnderBound<T>(t: Tree<T>, n: nat)
    requires WellFormed(t) && n <= |t.children|
    ensures NodesUnder(t, n) + n <= 2 * |Union(Parts(t)[..n])|
    decreases t, n
  {
    hide Contents, Prefixed, Union, Parts;
    if n > 0 {
      var c := t.children[n - 1];
      NodesUnderBound(t, n - 1);
      NodesUnderBound(c, |c.children|);
      ContentsSize(c);
      NextShareSize(t, n - 1);
    }
  }

  lemma ContentsSize<T>(t: Tree<T>)
    requires DistinctHeads(t)
    ensures |Contents(t)| == |Union(Parts(t)[..|t.children|])| + (if t.value.Some? then 1 else 0)
  {
    hide Prefixed, Union;
    var parts := Parts(t);
    assert parts[..|t.children|] == parts;
    forall j | 0 <= j < |parts| ensures !In(parts[j], "") {
      assert parts[j].0 != "";
    }
    UnionOf(parts, "");
    if t.value.Some? {
      DisjointSize(map["" := t.value.value], Union(parts));
    }
  }

  /** A tree has at most two nodes below its root for every key. */
  lemma NodeBound<T>(t: Tree<T>)
    requires WellFormed(t)
    ensures NodesBelow(t) <= 2 * |Contents(t)|
  {
    hide Contents, Prefixed, Union;
    NodesUnderBound(t, |t.children|);
    ContentsSize(t);
  }
}
