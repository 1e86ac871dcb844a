/**
 The radix tree of internal/trie/trie.go as a value.  `Insert`, `Matches` follow the
 branches of the Go code; `Contents` is the naive reading of a tree (the union of all its
 root-to-node paths) that they are compared with.
 */
module RadixTree {
  import opened Wrappers

  datatype Tree<T> = Node(prefix: string, children: seq<Tree<T>>, value: Option<T>)

  datatype InsertResult<T> = Inserted(tree: Tree<T>) | Duplicate

  /** The length of the longest common prefix. */
  function CommonLength(a: string, b: string): (n: nat)
    ensures n <= |a| && n <= |b| && a[..n] == b[..n]
    ensures n == |a| || n == |b| || a[n] != b[n]
  {
    if a == [] || b == [] || a[0] != b[0] then 0
    else
      var n := 1 + CommonLength(a[1..], b[1..]);
      assert a[..n] == [a[0]] + a[1..][..n - 1] && b[..n] == [b[0]] + b[1..][..n - 1];
      n
  }

  function Leaf<T>(key: string, value: T): Tree<T> {
    Node(key, [], Some(value))
  }

  /** The first child that shares a nonempty prefix with `key`, or the number of children. */
  function FirstOverlap<T>(children: seq<Tree<T>>, key: string): (i: nat)
    ensures i <= |children|
    ensures i < |children| ==> CommonLength(key, children[i].prefix) > 0
    ensures forall j :: 0 <= j < i ==> CommonLength(key, children[j].prefix) == 0
  {
    if children == [] then 0
    else if CommonLength(key, children[0].prefix) > 0 then 0
    else 1 + FirstOverlap(children[1..], key)
  }

  /** Node `c`, whose prefix has only its first `n` characters in common with `key`, made into a branch. */
  function Split<T>(c: Tree<T>, n: nat, key: string, value: T): Tree<T>
    requires n <= |c.prefix| && n <= |key|
  {
    var lower := Node(c.prefix[n..], c.children, c.value);
    if n == |key| then Node(c.prefix[..n], [lower], Some(value))
    else Node(c.prefix[..n], [lower, Leaf(key[n..], value)], None)
  }

  /** Inserts `key`, which is relative to node `t`, below `t`. */
  function Insert<T>(t: Tree<T>, key: string, value: T): (r: InsertResult<T>)
    decreases t
  {
    var i := FirstOverlap(t.children, key);
    if i == |t.children| then
      Inserted(t.(children := t.children + [Leaf(key, value)]))
    else
      var c := t.children[i];
      var n := CommonLength(key, c.prefix);
      if n == |c.prefix| && n == |key| then
        if c.value.Some? then Duplicate
        else Inserted(t.(children := t.children[i := c.(value := Some(value))]))
      else if n == |c.prefix| then
        match Insert(c, key[n..], value)
        case Duplicate => Duplicate
        case Inserted(c') => Inserted(t.(children := t.children[i := c']))
      else
        Inserted(t.(children := t.children[i := Split(c, n, key, value)]))
  }

  // ---------------------------------------------------------------- the naive reading

  ghost function Prefixed<T>(p: string, m: map<string, T>): (r: map<string, T>)
    ensures forall k {:trigger k in r} :: k in r <==> p <= k && k[|p|..] in m
    ensures forall k {:trigger r[k]} :: k in r ==> r[k] == m[k[|p|..]]
  {
    var keys := set x | x in m :: p + x;
    assert forall k {:trigger k in keys} :: k in keys <==> p <= k && k[|p|..] in m by {
      forall k | p <= k && k[|p|..] in m ensures k in keys {
        assert k == p + k[|p|..];
      }
    }
    map k | k in keys :: m[k[|p|..]]
  }

  /** The union of the maps of `parts`, each under its prefix. */
  ghost function Union<T>(parts: seq<(string, map<string, T>)>): map<string, T> {
    if parts == [] then map[]
    else Union(parts[..|parts| - 1]) + Prefixed(parts[|parts| - 1].0, parts[|parts| - 1].1)
  }

  /** All bindings below `t`, the keys relative to `t`. */
  ghost function Contents<T>(t: Tree<T>): map<string, T>
    decreases t, 1
  {
    (if t.value.Some? then map["" := t.value.value] else map[]) + Union(Parts(t))
  }

  ghost function Parts<T>(t: Tree<T>): (r: seq<(string, map<string, T>)>)
    ensures |r| == |t.children|
    decreases t, 0
  {
    seq(|t.children|, i requires 0 <= i < |t.children| => (t.children[i].prefix, Contents(t.children[i])))
  }

  /** The children of `t` can be told apart by their first character. */
  ghost predicate DistinctHeads<T>(t: Tree<T>) {
    && (forall i :: 0 <= i < |t.children| ==> t.children[i].prefix != "")
    && (forall i, j :: 0 <= i < j < |t.children| ==> t.children[i].prefix[0] != t.children[j].prefix[0])
  }

  /** A node other than the root is there for its value or because the keys below it part. */
  ghost predicate Earned<T>(t: Tree<T>) {
    t.value.Some? || |t.children| >= 2
  }

  ghost predicate WellFormed<T>(t: Tree<T>)
    decreases t
  {
    && DistinctHeads(t)
    && forall i :: 0 <= i < |t.children| ==> Earned(t.children[i]) && WellFormed(t.children[i])
  }

  // ---------------------------------------------------------------- looking a key up

  ghost predicate In<T>(part: (string, map<string, T>), k: string) {
    part.0 <= k && k[|part.0|..] in part.1
  }

  lemma {:induction false} UnionOf<T>(parts: seq<(string, map<string, T>)>, k: string)
    requires forall i, j :: 0 <= i < j < |parts| ==> !(In(parts[i], k) && In(parts[j], k))
    ensures k in Union(parts) <==> exists i :: 0 <= i < |parts| && In(parts[i], k)
    ensures forall i :: 0 <= i < |parts| && In(parts[i], k) ==> Union(parts)[k] == parts[i].1[k[|parts[i].0|..]]
  {
    hide Prefixed;
    if parts != [] {
      var n := |parts| - 1;
      UnionOf(parts[..n], k);
      assert Union(parts) == Union(parts[..n]) + Prefixed(parts[n].0, parts[n].1);
      forall i | 0 <= i < n ensures parts[..n][i] == parts[i] {}
    }
  }

  /** Whether child `i` of `t` holds `k`, a key relative to `t`. */
  ghost predicate Holds<T>(t: Tree<T>, i: nat, k: string)
    requires i < |t.children|
  {
    t.children[i].prefix <= k && k[|t.children[i].prefix|..] in Contents(t.children[i])
  }

  /** A nonempty key can only live below the one child with its first character. */
  lemma LookupIn<T>(t: Tree<T>, i: nat, k: string)
    requires DistinctHeads(t) && i < |t.children| && k != "" && t.children[i].prefix[0] == k[0]
    ensures k in Contents(t) <==> Holds(t, i, k)
    ensures k in Contents(t) ==> Contents(t)[k] == Contents(t.children[i])[k[|t.children[i].prefix|..]]
  {
    var parts := Parts(t);
    forall j | 0 <= j < |parts| && In(parts[j], k) ensures j == i {
      assert parts[j].0[0] == k[0];
    }
    UnionOf(parts, k);
    assert In(parts[i], k) == Holds(t, i, k);
  }

  lemma LookupNone<T>(t: Tree<T>, k: string)
    requires DistinctHeads(t) && k != "" && forall i :: 0 <= i < |t.children| ==> t.children[i].prefix[0] != k[0]
    ensures k !in Contents(t)
  {
    var parts := Parts(t);
    forall j | 0 <= j < |parts| ensures !In(parts[j], k) {
      assert parts[j].0[0] != k[0];
    }
    UnionOf(parts, k);
  }

  lemma LookupHere<T>(t: Tree<T>)
    requires DistinctHeads(t)
    ensures "" in Contents(t) <==> t.value.Some?
    ensures t.value.Some? ==> Contents(t)[""] == t.value.value
  {
    var parts := Parts(t);
    forall j | 0 <= j < |parts| ensures !In(parts[j], "") {
      assert parts[j].0 != "";
    }
    UnionOf(parts, "");
  }

  // ---------------------------------------------------------------- insertion

  /** What child `c` contributes to its parent. */
  ghost function Share<T>(c: Tree<T>): map<string, T> {
    Prefixed(c.prefix, Contents(c))
  }

  lemma ShareLookup<T>(t: Tree<T>, i: nat, k: string)
    requires DistinctHeads(t) && i < |t.children| && k != "" && t.children[i].prefix[0] == k[0]
    ensures k in Contents(t) <==> k in Share(t.children[i])
    ensures k in Contents(t) ==> Contents(t)[k] == Share(t.children[i])[k]
  {
    LookupIn(t, i, k);
  }

  /** Replacing one child by one with the same first character changes only that child's share. */
  lemma ReplaceChild<T>(t: Tree<T>, i: nat, c: Tree<T>, key: string, value: T)
    requires DistinctHeads(t) && i < |t.children| && key != ""
    requires c.prefix != "" && c.prefix[0] == t.children[i].prefix[0] == key[0]
    requires Share(c) == Share(t.children[i])[key := value]
    ensures var t' := t.(children := t.children[i := c]);
            DistinctHeads(t') && Contents(t') == Contents(t)[key := value]
  {
    hide Contents, Prefixed, Union;
    var t' := t.(children := t.children[i := c]);
    var m, m' := Contents(t), Contents(t');
    forall k ensures (k in m' <==> k in m[key := value]) && (k in m' ==> m'[k] == m[key := value][k]) {
      ReplaceChildAt(t, i, c, key, value, k);
    }
    assert m' == m[key := value];
  }

  lemma ReplaceChildAt<T>(t: Tree<T>, i: nat, c: Tree<T>, key: string, value: T, k: string)
    requires DistinctHeads(t) && i < |t.children| && key != ""
    requires c.prefix != "" && c.prefix[0] == t.children[i].prefix[0] == key[0]
    requires Share(c) == Share(t.children[i])[key := value]
    ensures var t' := t.(children := t.children[i := c]);
            && DistinctHeads(t')
            && (k in Contents(t') <==> k == key || k in Contents(t))
            && (k in Contents(t') ==> Contents(t')[k] == if k == key then value else Contents(t)[k])
  {
    hide Contents, Prefixed, Union;
    var t' := t.(children := t.children[i := c]);
    if k != "" && k[0] == key[0] {
      ShareLookup(t, i, k);
      ShareLookup(t', i, k);
    } else {
      SameElsewhere(t, i, c, k);
    }
  }

  lemma SameElsewhere<T>(t: Tree<T>, i: nat, c: Tree<T>, k: string)
    requires DistinctHeads(t) && i < |t.children| && c.prefix != "" && c.prefix[0] == t.children[i].prefix[0]
    requires k == "" || k[0] != c.prefix[0]
    ensures var t' := t.(children := t.children[i := c]);
            && (k in Contents(t') <==> k in Contents(t))
            && (k in Contents(t') ==> Contents(t')[k] == Contents(t)[k])
  {
    var t' := t.(children := t.children[i := c]);
    assert DistinctHeads(t');
    if k == "" {
      LookupHere(t);
      LookupHere(t');
    } else if j :| 0 <= j < |t.children| && t.children[j].prefix[0] == k[0] {
      LookupIn(t, j, k);
      LookupIn(t', j, k);
    } else {
      LookupNone(t, k);
      LookupNone(t', k);
    }
  }

  lemma PrefixedUpdate<T>(p: string, m: map<string, T>, key: string, value: T)
    ensures Prefixed(p, m[key := value]) == Prefixed(p, m)[p + key := value]
  {
    var l, r := Prefixed(p, m[key := value]), Prefixed(p, m)[p + key := value];
    forall k ensures (k in l <==> k in r) && (k in l ==> l[k] == r[k]) {
      if p <= k && k[|p|..] == key {
        assert k == p + key;
      }
    }
  }

  lemma PrefixedTwice<T>(p: string, q: string, m: map<string, T>)
    ensures Prefixed(p, Prefixed(q, m)) == Prefixed(p + q, m)
  {
    hide Prefixed;
    var l, r := Prefixed(p, Prefixed(q, m)), Prefixed(p + q, m);
    forall k ensures (k in l <==> k in r) && (k in l ==> l[k] == r[k]) {
      if p <= k {
        assert k == p + k[|p|..];
        if q <= k[|p|..] {
          assert k[|p|..] == q + k[|p|..][|q|..];
          assert k == p + q + k[|p|..][|q|..];
        }
        if p + q <= k {
          assert k[|p|..] == k[|p|..|p + q|] + k[|p + q|..];
        }
        assert q <= k[|p|..] <==> p + q <= k;
        if p + q <= k {
          assert k[|p + q|..] == k[|p|..][|q|..];
        }
      }
    }
  }

  lemma UnionAppend<T>(parts: seq<(string, map<string, T>)>, a: (string, map<string, T>))
    ensures Union(parts + [a]) == Union(parts) + Prefixed(a.0, a.1)
  {
    hide Prefixed;
    assert (parts + [a])[..|parts|] == parts;
  }

  lemma AppendChild<T>(t: Tree<T>, c: Tree<T>)
    ensures Contents(t.(children := t.children + [c])) == Contents(t) + Share(c)
  {
    hide Prefixed, Union;
    assert Parts(t.(children := t.children + [c])) == Parts(t) + [(c.prefix, Contents(c))];
    UnionAppend(Parts(t), (c.prefix, Contents(c)));
  }

  lemma NoChildren<T>(p: string, v: Option<T>)
    ensures Contents(Node(p, [], v)) == if v.Some? then map["" := v.value] else map[]
  {
    assert Parts(Node(p, [], v)) == [];
  }

  lemma OneChild<T>(p: string, c: Tree<T>, v: Option<T>)
    ensures Contents(Node(p, [c], v)) == (if v.Some? then map["" := v.value] else map[]) + Share(c)
  {
    hide Prefixed, Union, Contents;
    NoChildren(p, v);
    AppendChild(Node(p, [], v), c);
    assert [] + [c] == [c];
  }

  lemma TwoChildren<T>(p: string, c: Tree<T>, d: Tree<T>)
    ensures Contents(Node(p, [c, d], None)) == Share(c) + Share(d)
  {
    hide Prefixed, Union, Contents;
    OneChild(p, c, None);
    AppendChild(Node(p, [c], None), d);
    assert [c] + [d] == [c, d];
  }

  lemma LeafShare<T>(key: string, value: T)
    ensures Share(Leaf(key, value)) == map[key := value]
  {
    var m := Contents(Leaf(key, value));
    assert m == map["" := value];
    forall k ensures k in Share(Leaf(key, value)) <==> k == key {
      if key <= k && k[|key|..] == "" {
        assert k == key;
      }
    }
  }

  /** Splitting child `c` adds exactly `key` to what it contributes. */
  lemma SplitShare<T>(c: Tree<T>, n: nat, key: string, value: T)
    requires 0 < n < |c.prefix| && n <= |key| && key[..n] == c.prefix[..n]
    requires n < |key| ==> key[n] != c.prefix[n]
    ensures Share(Split(c, n, key, value)) == Share(c)[key := value]
    ensures key !in Share(c)
  {
    hide Prefixed, Contents, Union;
    var head := c.prefix[..n];
    var lower := Node(c.prefix[n..], c.children, c.value);
    assert Contents(lower) == Contents(c) by { SameBelow(c, lower); }
    assert head + c.prefix[n..] == c.prefix;
    PrefixedTwice(head, c.prefix[n..], Contents(c));
    assert Share(c) == Prefixed(head, Share(lower));
    if n == |key| {
      assert key == head;
      OneChild(head, lower, Some(value));
      assert Contents(Split(c, n, key, value)) == Share(lower)["" := value] by {
        assert "" !in Share(lower);
      }
      PrefixedUpdate(head, Share(lower), "", value);
      assert head + "" == key;
    } else {
      var leaf := Leaf(key[n..], value);
      assert key == head + key[n..];
      TwoChildren(head, lower, leaf);
      LeafShare(key[n..], value);
      assert Contents(Split(c, n, key, value)) == Share(lower)[key[n..] := value];
      PrefixedUpdate(head, Share(lower), key[n..], value);
    }
  }

  lemma SameBelow<T>(c: Tree<T>, d: Tree<T>)
    requires c.children == d.children && c.value == d.value
    ensures Contents(c) == Contents(d)
  {
    assert Parts(c) == Parts(d);
  }

  lemma AddLeaf<T>(t: Tree<T>, key: string, value: T)
    requires DistinctHeads(t) && key != "" && forall i :: 0 <= i < |t.children| ==> t.children[i].prefix[0] != key[0]
    ensures var t' := t.(children := t.children + [Leaf(key, value)]);
            DistinctHeads(t') && key !in Contents(t) && Contents(t') == Contents(t)[key := value]
  {
    hide Prefixed, Contents, Union;
    AppendChild(t, Leaf(key, value));
    LookupNone(t, key);
    LeafShare(key, value);
  }

  /** No child overlaps a key whose first character heads none of them, and the other way round. */
  lemma OverlapIsHead(a: string, b: string)
    requires a != "" && b != ""
    ensures CommonLength(a, b) > 0 <==> a[0] == b[0]
  {
  }

  lemma KeepsShape<T>(t: Tree<T>, i: nat, c: Tree<T>)
    requires WellFormed(t) && i < |t.children| && c.prefix != "" && c.prefix[0] == t.children[i].prefix[0]
    requires Earned(c) && WellFormed(c)
    ensures WellFormed(t.(children := t.children[i := c]))
  {
    var t' := t.(children := t.children[i := c]);
    forall j | 0 <= j < |t'.children| ensures Earned(t'.children[j]) && WellFormed(t'.children[j]) {
      if j != i {
        assert t'.children[j] == t.children[j];
      }
    }
  }

  lemma SplitShape<T>(c: Tree<T>, n: nat, key: string, value: T)
    requires 0 < n < |c.prefix| && n <= |key| && Earned(c) && WellFormed(c)
    requires n < |key| ==> key[n] != c.prefix[n]
    ensures var c' := Split(c, n, key, value);
            Earned(c') && WellFormed(c') && c'.prefix != "" && c'.prefix[0] == c.prefix[0]
  {
    var lower := Node(c.prefix[n..], c.children, c.value);
    assert Earned(lower) && WellFormed(lower);
    if n < |key| {
      assert WellFormed(Leaf(key[n..], value));
    }
  }

  lemma SetValue<T>(t: Tree<T>, i: nat, key: string, value: T)
    requires WellFormed(t) && i < |t.children| && key == t.children[i].prefix
    ensures key in Contents(t) <==> t.children[i].value.Some?
    ensures t.children[i].value.None? ==>
              var t' := t.(children := t.children[i := t.children[i].(value := Some(value))]);
              WellFormed(t') && Contents(t') == Contents(t)[key := value]
  {
    hide Prefixed, Union;
    var c := t.children[i];
    LookupIn(t, i, key);
    LookupHere(c);
    assert key[|key|..] == "";
    if c.value.None? {
      var c' := c.(value := Some(value));
      assert WellFormed(c');
      assert Parts(c') == Parts(c);
      assert Contents(c') == Contents(c)["" := value];
      PrefixedUpdate(key, Contents(c), "", value);
      assert key + "" == key;
      assert Share(c') == Share(c)[key := value];
      ReplaceChild(t, i, c', key, value);
      KeepsShape(t, i, c');
    }
  }

  lemma Descend<T>(t: Tree<T>, i: nat, key: string, value: T, c': Tree<T>)
    requires WellFormed(t) && i < |t.children|
    requires t.children[i].prefix < key
    requires var c := t.children[i];
             && Contents(c') == Contents(c)[key[|c.prefix|..] := value] && WellFormed(c')
             && c'.prefix == c.prefix && c'.value == c.value && |c'.children| >= |c.children|
    ensures var t' := t.(children := t.children[i := c']);
            WellFormed(t') && Contents(t') == Contents(t)[key := value]
  {
    hide Prefixed, Contents, Union;
    var c := t.children[i];
    PrefixedUpdate(c.prefix, Contents(c), key[|c.prefix|..], value);
    assert c.prefix + key[|c.prefix|..] == key;
    ReplaceChild(t, i, c', key, value);
    KeepsShape(t, i, c');
  }

  /**
   Insertion refines a map: it is refused exactly for a key that is already bound, and
   otherwise adds exactly that binding; the shape survives every split.
   */
  lemma {:induction false} InsertRefinesMap<T>(t: Tree<T>, key: string, value: T)
    requires WellFormed(t) && key != ""
    ensures match Insert(t, key, value)
            case Duplicate => key in Contents(t)
            case Inserted(t') =>
              && key !in Contents(t)
              && Contents(t') == Contents(t)[key := value]
              && WellFormed(t') && t'.prefix == t.prefix && t'.value == t.value
              && |t'.children| >= |t.children|
    decreases t
  {
    hide Prefixed, Contents, Union;
    var i := FirstOverlap(t.children, key);
    if i == |t.children| {
      forall j | 0 <= j < |t.children| ensures t.children[j].prefix[0] != key[0] {
        OverlapIsHead(key, t.children[j].prefix);
      }
      AddLeaf(t, key, value);
    } else {
      var c := t.children[i];
      var n := CommonLength(key, c.prefix);
      OverlapIsHead(key, c.prefix);
      LookupIn(t, i, key);
      if n == |c.prefix| && n == |key| {
        SetValue(t, i, key, value);
      } else if n == |c.prefix| {
        InsertRefinesMap(c, key[n..], value);
        var r := Insert(c, key[n..], value);
        if r.Inserted? {
          Descend(t, i, key, value, r.tree);
        }
      } else {
        SplitShare(c, n, key, value);
        var c' := Split(c, n, key, value);
        ReplaceChild(t, i, c', key, value);
        SplitShape(c, n, key, value);
        KeepsShape(t, i, c');
        ShareLookup(t, i, key);
      }
    }
  }
}
