/**
 The trie as it sits in memory: nodes that `insert` rewrites in place.  `tree` is the value
 that a node and everything below it stands for.
 */
module RadixTrie {
  import opened Wrappers
  import opened RadixTree
  import opened RadixMatch

  datatype Error = EmptyKey | DuplicateKey

  method LongestCommonPrefix(a: string, b: string) returns (i: nat)
    ensures i == CommonLength(a, b)
  {
    var max := |a|;
    if |b| < max {
      max := |b|;
    }
    i := 0;
    while i < max && a[i] == b[i]
      invariant i <= max
      invariant CommonLength(a, b) == i + CommonLength(a[i..], b[i..])
    {
      assert a[i..][1..] == a[i + 1..] && b[i..][1..] == b[i + 1..];
      i := i + 1;
    }
  }

  lemma {:induction false} FirstOverlapIs<T>(children: seq<Tree<T>>, key: string, i: nat)
    requires i <= |children| && forall j :: 0 <= j < i ==> CommonLength(key, children[j].prefix) == 0
    requires i < |children| ==> CommonLength(key, children[i].prefix) > 0
    ensures FirstOverlap(children, key) == i
  {
    if i > 0 {
      FirstOverlapIs(children[1..], key, i - 1);
    }
  }

  lemma {:induction false} FirstPrefixIs<T>(children: seq<Tree<T>>, s: string, i: nat)
    requires i <= |children| && forall j :: 0 <= j < i ==> !(children[j].prefix <= s)
    requires i < |children| ==> children[i].prefix <= s
    ensures FirstPrefix(children, s) == i
  {
    if i > 0 {
      FirstPrefixIs(children[1..], s, i - 1);
    }
  }

  /** What inserting `key` does to a child `c` that shares a prefix with it. */
  ghost predicate Through<T>(c: Tree<T>, key: string, value: T, failed: bool, c': Tree<T>)
  {
    var n := CommonLength(key, c.prefix);
    if n == |c.prefix| && n == |key| then
      failed == c.value.Some? && c' == if failed then c else c.(value := Some(value))
    else if n == |c.prefix| then
      match RadixTree.Insert(c, key[n..], value)
      case Duplicate => failed && c' == c
      case Inserted(d) => !failed && c' == d
    else !failed && c' == Split(c, n, key, value)
  }

  lemma InsertThroughChild<T>(t: Tree<T>, i: nat, key: string, value: T, failed: bool, c': Tree<T>)
    requires i == FirstOverlap(t.children, key) < |t.children| && Through(t.children[i], key, value, failed, c')
    ensures failed ==> RadixTree.Insert(t, key, value) == InsertResult.Duplicate && c' == t.children[i]
    ensures !failed ==> RadixTree.Insert(t, key, value) == Inserted(t.(children := t.children[i := c']))
  {
  }

  lemma InsertLeaf<T>(t: Tree<T>, key: string, value: T)
    requires FirstOverlap(t.children, key) == |t.children|
    ensures RadixTree.Insert(t, key, value) == Inserted(t.(children := t.children + [Leaf(key, value)]))
  {
  }

  class TrieNode<T(0)> {
    var prefix: string
    var children: seq<TrieNode<T>>
    var hasValue: bool
    var value: T

    ghost var Repr: set<object>
    ghost var tree: Tree<T>

    ghost predicate Valid()
      reads this, Repr
      ensures Valid() ==> this in Repr
      decreases Repr
    {
      && this in Repr
      && tree.prefix == prefix
      && tree.value == (if hasValue then Some(value) else None)
      && |tree.children| == |children|
      && (forall i :: 0 <= i < |children| ==>
            && children[i] in Repr && children[i].Repr <= Repr && this !in children[i].Repr
            && children[i].Valid()
            && tree.children[i] == children[i].tree)
      && (forall i, j :: 0 <= i < j < |children| ==> children[i].Repr !! children[j].Repr)
    }

    constructor (prefix: string, children: seq<TrieNode<T>>, hasValue: bool, value: T,
                 ghost subtrees: seq<Tree<T>>, ghost below: set<object>)
      requires |subtrees| == |children|
      requires forall i :: 0 <= i < |children| ==>
                 && children[i] in below && children[i].Repr <= below && children[i].Valid()
                 && children[i].tree == subtrees[i]
      requires forall i, j :: 0 <= i < j < |children| ==> children[i].Repr !! children[j].Repr
      ensures Valid() && Repr == {this} + below
      ensures tree == Tree.Node(prefix, subtrees, if hasValue then Some(value) else None)
      ensures this.prefix == prefix
    {
      this.prefix, this.children, this.hasValue, this.value := prefix, children, hasValue, value;
      Repr := {this} + below;
      tree := Tree.Node(prefix, subtrees, if hasValue then Some(value) else None);
    }

    /** Makes this node a branch with the first `common` characters of its prefix. */
    method SplitNode(common: nat, key: string, v: T)
      requires Valid() && common < |prefix| && common <= |key|
      modifies this
      ensures Valid() && fresh(Repr - old(Repr))
      ensures tree == Split(old(tree), common, key, v)
    {
      Lower(common);
      var remaining := key[common..];
      if remaining == "" {
        SetValue(v);
      } else {
        AddLeaf(remaining, v);
      }
    }

    /** Pushes everything but the first `common` characters of the prefix into a new only child. */
    method Lower(common: nat)
      requires Valid() && common < |prefix|
      modifies this
      ensures Valid() && fresh(Repr - old(Repr)) && !hasValue
      ensures var t := old(tree);
              tree == Tree.Node(t.prefix[..common], [Tree.Node(t.prefix[common..], t.children, t.value)], None)
    {
      ghost var below := Repr - {this};
      var split := new TrieNode<T>(prefix[common..], children, hasValue, value, tree.children, below);
      prefix := prefix[..common];
      children := [split];
      hasValue := false;
      Repr := Repr + split.Repr;
      tree := Tree.Node(prefix, [split.tree], None);
    }

    method SetValue(v: T)
      requires Valid() && !hasValue
      modifies this
      ensures Valid() && Repr == old(Repr) && tree == old(tree).(value := Some(v))
    {
      hasValue := true;
      value := v;
      tree := tree.(value := Some(v));
    }

    /** The child that shares a prefix with `key`, and how much of it. */
    method FindOverlap(key: string) returns (i: nat, common: nat)
      requires Valid()
      ensures i == FirstOverlap(tree.children, key)
      ensures i < |children| ==> common == CommonLength(key, children[i].prefix)
    {
      i, common := 0, 0;
      while i < |children|
        invariant i <= |children|
        invariant forall j :: 0 <= j < i ==> CommonLength(key, children[j].prefix) == 0
      {
        common := LongestCommonPrefix(key, children[i].prefix);
        if common != 0 {
          break;
        }
        i := i + 1;
      }
      FirstOverlapIs(tree.children, key, i);
    }

    /** The first child whose prefix starts `s`. */
    method FindPrefix(s: string) returns (i: nat)
      requires Valid()
      ensures i == FirstPrefix(tree.children, s)
    {
      i := 0;
      while i < |children|
        invariant i <= |children|
        invariant forall j :: 0 <= j < i ==> !(children[j].prefix <= s)
      {
        if children[i].prefix <= s {
          break;
        }
        i := i + 1;
      }
      FirstPrefixIs(tree.children, s, i);
    }

    method Insert(key: string, v: T) returns (err: Option<Error>)
      requires Valid() && key != ""
      modifies Repr
      ensures Valid() && fresh(Repr - old(Repr))
      ensures err == None || err == Some(DuplicateKey)
      ensures RadixTree.Insert(old(tree), key, v) == if err == None then Inserted(tree) else InsertResult.Duplicate
      ensures err != None ==> tree == old(tree)
      decreases Repr, 1
    {
      hide RadixTree.Insert, Through, FirstOverlap, CommonLength;
      var i, common := FindOverlap(key);
      if i < |children| {
        var child := children[i];
        ghost var before := tree;
        err := InsertThrough(child, common, key, v);
        InsertThroughChild(before, i, key, v, err != None, child.tree);
        Adopt(i);
        assert err != None ==> tree.children == before.children;
      } else {
        InsertLeaf(tree, key, v);
        AddLeaf(key, v);
        err := None;
      }
    }

    method AddLeaf(key: string, v: T)
      requires Valid()
      modifies this
      ensures Valid() && fresh(Repr - old(Repr))
      ensures tree == old(tree).(children := old(tree).children + [Leaf(key, v)])
    {
      var leaf := new TrieNode<T>(key, [], true, v, [], {});
      children := children + [leaf];
      Repr := Repr + leaf.Repr;
      tree := tree.(children := tree.children + [leaf.tree]);
    }

    /** Inserts `key` at or below `child`, which has its first `common` characters as a prefix. */
    static method InsertThrough(child: TrieNode<T>, common: nat, key: string, v: T) returns (err: Option<Error>)
      requires child.Valid() && 0 < common == CommonLength(key, child.prefix)
      modifies child.Repr
      ensures child.Valid() && fresh(child.Repr - old(child.Repr))
      ensures err == None || err == Some(DuplicateKey)
      ensures Through(old(child.tree), key, v, err != None, child.tree)
      decreases child.Repr, 2
    {
      if common == |child.prefix| && common == |key| {
        if child.hasValue {
          return Some(DuplicateKey);
        }
        child.SetValue(v);
      } else if common == |child.prefix| {
        err := child.Insert(key[common..], v);
        return;
      } else {
        child.SplitNode(common, key, v);
      }
      return None;
    }

    /** Takes over what child `i` has become. */
    ghost method Adopt(i: nat)
      requires this in Repr && i < |children| == |tree.children|
      requires tree.prefix == prefix && tree.value == if hasValue then Some(value) else None
      requires forall j :: 0 <= j < |children| ==>
                 && children[j].Valid() && this !in children[j].Repr
                 && (j != i ==> children[j] in Repr && children[j].Repr <= Repr && tree.children[j] == children[j].tree)
      requires forall j, k :: 0 <= j < k < |children| ==> children[j].Repr !! children[k].Repr
      modifies this`Repr, this`tree
      ensures Valid() && Repr == old(Repr) + children[i].Repr
      ensures tree == old(tree).(children := old(tree).children[i := children[i].tree])
    {
      Repr := Repr + children[i].Repr;
      tree := tree.(children := tree.children[i := children[i].tree]);
    }
  }

  /** The trie: an empty-prefixed root that never carries a value. */
  class Trie<T(0)> {
    var root: TrieNode<T>
    ghost var Repr: set<object>

    ghost predicate Valid()
      reads this, Repr
      ensures Valid() ==> this in Repr
    {
      && this in Repr && root in Repr && root.Repr <= Repr && this !in root.Repr
      && root.Valid() && WellFormed(root.tree) && root.tree.prefix == ""
    }

    /** The tree that this trie stands for. */
    ghost function Tree(): Tree<T>
      reads this, root
    {
      root.tree
    }

    constructor (ghost zero: T)
      ensures Valid() && fresh(Repr)
      ensures Tree() == Build<T>([])
      ensures Contents(Tree()) == map[]
    {
      NoChildren<T>("", None);
      var value: T := *;
      root := new TrieNode<T>("", [], false, value, [], {});
      new;
      Repr := {this} + root.Repr;
    }

    method Insert(key: string, value: T) returns (err: Option<Error>)
      requires Valid()
      modifies Repr
      ensures Valid() && fresh(Repr - old(Repr))
      ensures err == (if key == "" then Some(EmptyKey)
                      else if key in old(Contents(Tree())) then Some(DuplicateKey) else None)
      ensures err != None ==> Tree() == old(Tree())
      ensures err == None ==> Contents(Tree()) == old(Contents(Tree()))[key := value]
      ensures Tree() == if key == "" then old(Tree()) else match RadixTree.Insert(old(Tree()), key, value)
                                                          case Duplicate => old(Tree()) case Inserted(t) => t
    {
      if key == "" {
        return Some(EmptyKey);
      }
      InsertRefinesMap(root.tree, key, value);
      err := root.Insert(key, value);
      Repr := Repr + root.Repr;
    }

    /** The walk of `MatchAll`: `calls` records the callbacks it makes. */
    method MatchAll(s: string, fn: (T, string) -> bool) returns (found: bool, calls: seq<(string, T)>)
      requires Valid()
      ensures calls == UpTo(Matches(Tree(), s, ""), fn)
      ensures found <==> calls != [] && fn(calls[|calls| - 1].1, calls[|calls| - 1].0)
    {
      hide UpTo, Matches, FirstPrefix, WellFormed, Contents;
      var n, search, matched := root, s, "";
      calls := [];
      while true
        invariant n.Valid()
        invariant UpTo(Matches(Tree(), s, ""), fn) == calls + UpTo(Matches(n.tree, search, matched), fn)
        invariant calls == [] || !fn(calls[|calls| - 1].1, calls[|calls| - 1].0)
        decreases n.Repr
      {
        UpToStep(n.tree, search, matched, fn);
        if n.hasValue {
          calls := calls + [(matched, n.value)];
          if fn(n.value, matched) {
            return true, calls;
          }
        }
        var i := n.FindPrefix(search);
        if i == |n.children| {
          return false, calls;
        }
        matched := matched + n.children[i].prefix;
        search := search[|n.children[i].prefix|..];
        n := n.children[i];
      }
    }

    /** The first value on the walk along `s`, with the key it is stored under. */
    method ShortestMatch(s: string) returns (r: Option<(string, T)>)
      requires Valid()
      ensures r == None ==> forall k :: k in Contents(Tree()) ==> !(k <= s)
      ensures r != None ==>
                var (k, v) := r.value;
                && k <= s && k in Contents(Tree()) && Contents(Tree())[k] == v
                && forall k' :: k' in Contents(Tree()) && k' <= s ==> |k| <= |k'|
    {
      FirstMatchIsShortest(Tree(), s);
      hide Matches, FirstPrefix, WellFormed, Contents;
      var n, search, matched := root, s, "";
      while true
        invariant n.Valid()
        invariant Matches(Tree(), s, "") == Matches(n.tree, search, matched)
        decreases n.Repr
      {
        MatchesStep(n.tree, search, matched);
        if n.hasValue {
          return Some((matched, n.value));
        }
        var i := n.FindPrefix(search);
        if i == |n.children| {
          return None;
        }
        matched := matched + n.children[i].prefix;
        search := search[|n.children[i].prefix|..];
        n := n.children[i];
      }
    }
  }
}
