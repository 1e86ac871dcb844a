/** Walking the tree along a string finds exactly what a scan over all of its prefixes finds. */
module RadixMatch {
  import opened Wrappers
  import opened RadixTree

  /** The first child whose prefix starts `s`, or the number of children. */
  function FirstPrefix<T>(children: seq<Tree<T>>, s: string): (i: nat)
    ensures i <= |children|
    ensures i < |children| ==> children[i].prefix <= s
    ensures forall j :: 0 <= j < i ==> !(children[j].prefix <= s)
  {
    if children == [] then 0
    else if children[0].prefix <= s then 0
    else 1 + FirstPrefix(children[1..], s)
  }

  function Here<T>(t: Tree<T>, path: string): seq<(string, T)> {
    if t.value.Some? then [(path, t.value.value)] else []
  }

  /** What the walk along `s` meets from node `t` on; `path` is the way to `t`. */
  function Matches<T>(t: Tree<T>, s: string, path: string): seq<(string, T)>
    decreases t
  {
    var i := FirstPrefix(t.children, s);
    Here(t, path) +
    if i == |t.children| then []
    else Matches(t.children[i], s[|t.children[i].prefix|..], path + t.children[i].prefix)
  }

  /** The naive scan: looks up every prefix of `s` of length `n` or more, shortest first. */
  ghost function Scan<T>(m: map<string, T>, s: string, path: string, n: nat): seq<(string, T)>
    requires n <= |s| + 1
    decreases |s| + 1 - n
  {
    if n > |s| then []
    else (if s[..n] in m then [(path + s[..n], m[s[..n]])] else []) + Scan(m, s, path, n + 1)
  }

  lemma {:induction false} ScanSkips<T>(m: map<string, T>, s: string, path: string, lo: nat, hi: nat)
    requires lo <= hi <= |s| + 1
    requires forall n :: lo <= n < hi ==> s[..n] !in m
    ensures Scan(m, s, path, lo) == Scan(m, s, path, hi)
    decreases hi - lo
  {
    if lo < hi {
      ScanSkips(m, s, path, lo + 1, hi);
    }
  }

  /** Scanning a node behind the prefix of the child that `s` leads to is scanning that child. */
  lemma {:induction false} ScanShift<T>(t: Tree<T>, i: nat, s: string, path: string, n: nat)
    requires DistinctHeads(t) && i < |t.children| && t.children[i].prefix <= s
    requires n <= |s| - |t.children[i].prefix| + 1
    ensures var c := t.children[i];
            Scan(Contents(t), s, path, |c.prefix| + n) == Scan(Contents(c), s[|c.prefix|..], path + c.prefix, n)
    decreases |s| - n
  {
    hide Contents;
    var c := t.children[i];
    var rest := s[|c.prefix|..];
    if n <= |rest| {
      var k := s[..|c.prefix| + n];
      assert k[|c.prefix|..] == rest[..n] && k[0] == c.prefix[0];
      LookupIn(t, i, k);
      assert path + k == path + c.prefix + rest[..n];
      ScanShift(t, i, s, path, n + 1);
    }
  }

  /** The walk agrees with the naive scan. */
  lemma {:induction false} MatchesIsScan<T>(t: Tree<T>, s: string, path: string)
    requires WellFormed(t)
    ensures Matches(t, s, path) == Scan(Contents(t), s, path, 0)
    decreases t
  {
    hide Contents;
    var m, i := Contents(t), FirstPrefix(t.children, s);
    LookupHere(t);
    assert s[..0] == "" && path + "" == path;
    assert Scan(m, s, path, 0) == Here(t, path) + Scan(m, s, path, 1);
    if i == |t.children| {
      forall n | 1 <= n < |s| + 1 ensures s[..n] !in m {
        NotBelow(t, s[..n]);
      }
      ScanSkips(m, s, path, 1, |s| + 1);
    } else {
      var c := t.children[i];
      forall n | 1 <= n < |c.prefix| ensures s[..n] !in m {
        LookupIn(t, i, s[..n]);
      }
      ScanSkips(m, s, path, 1, |c.prefix|);
      ScanShift(t, i, s, path, 0);
      MatchesIsScan(c, s[|c.prefix|..], path + c.prefix);
    }
  }

  lemma NotBelow<T>(t: Tree<T>, k: string)
    requires DistinctHeads(t) && k != "" && forall i :: 0 <= i < |t.children| ==> !(t.children[i].prefix <= k)
    ensures k !in Contents(t)
  {
    hide Contents;
    if j :| 0 <= j < |t.children| && t.children[j].prefix[0] == k[0] {
      LookupIn(t, j, k);
    } else {
      LookupNone(t, k);
    }
  }

  lemma {:induction false} ScanYields<T>(m: map<string, T>, s: string, n: nat, k: string, v: T)
    requires n <= |s| + 1
    ensures (k, v) in Scan(m, s, "", n) <==> k <= s && |k| >= n && k in m && m[k] == v
    decreases |s| + 1 - n
  {
    if n <= |s| {
      ScanYields(m, s, n + 1, k, v);
      assert "" + s[..n] == s[..n];
      assert k <= s && |k| == n ==> k == s[..n];
    }
  }

  lemma {:induction false} ScanAscends<T>(m: map<string, T>, s: string, n: nat)
    requires n <= |s| + 1
    ensures forall i :: 0 <= i < |Scan(m, s, "", n)| ==> |Scan(m, s, "", n)[i].0| >= n
    ensures forall i, j :: 0 <= i < j < |Scan(m, s, "", n)| ==> |Scan(m, s, "", n)[i].0| < |Scan(m, s, "", n)[j].0|
    decreases |s| + 1 - n
  {
    if n <= |s| {
      ScanAscends(m, s, n + 1);
      assert "" + s[..n] == s[..n];
    }
  }

  /** `all` lists the bindings of `m` at prefixes of `s`, each once and shortest first. */
  ghost predicate ListsPrefixes<T>(all: seq<(string, T)>, m: map<string, T>, s: string) {
    && (forall i :: 0 <= i < |all| ==> all[i].0 <= s && all[i].0 in m && m[all[i].0] == all[i].1)
    && (forall k :: k in m && k <= s ==> exists i :: 0 <= i < |all| && all[i].0 == k)
    && (forall i, j :: 0 <= i < j < |all| ==> |all[i].0| < |all[j].0|)
  }

  /** What the scan yields. */
  lemma ScanMeaning<T>(m: map<string, T>, s: string)
    ensures ListsPrefixes(Scan(m, s, "", 0), m, s)
  {
    var all := Scan(m, s, "", 0);
    forall i | 0 <= i < |all| ensures all[i].0 <= s && all[i].0 in m && m[all[i].0] == all[i].1 {
      var (k, v) := all[i];
      assert (k, v) in all;
      ScanYields(m, s, 0, k, v);
    }
    forall k | k in m && k <= s ensures exists i :: 0 <= i < |all| && all[i].0 == k {
      ScanYields(m, s, 0, k, m[k]);
    }
    ScanAscends(m, s, 0);
  }

  /** The callbacks `MatchAll` makes when it meets `m`: up to and including the first that returns true. */
  function UpTo<T>(m: seq<(string, T)>, fn: (T, string) -> bool): seq<(string, T)> {
    if m == [] then []
    else if fn(m[0].1, m[0].0) then [m[0]]
    else [m[0]] + UpTo(m[1..], fn)
  }

  lemma MatchesStep<T>(t: Tree<T>, s: string, path: string)
    ensures t.value.Some? ==> Matches(t, s, path) != [] && Matches(t, s, path)[0] == (path, t.value.value)
    ensures var i := FirstPrefix(t.children, s);
            t.value.None? ==>
              Matches(t, s, path) ==
              if i == |t.children| then []
              else Matches(t.children[i], s[|t.children[i].prefix|..], path + t.children[i].prefix)
  {
  }

  /** One round of the walk: the value at the node, then whatever the child that `s` leads to yields. */
  lemma UpToStep<T>(t: Tree<T>, s: string, path: string, fn: (T, string) -> bool)
    ensures var i := FirstPrefix(t.children, s);
            var rest := if i == |t.children| then []
                        else UpTo(Matches(t.children[i], s[|t.children[i].prefix|..], path + t.children[i].prefix), fn);
            UpTo(Matches(t, s, path), fn) ==
            if t.value.None? then rest
            else if fn(t.value.value, path) then Here(t, path)
            else Here(t, path) + rest
  {
    var i := FirstPrefix(t.children, s);
    var rest := if i == |t.children| then []
                else Matches(t.children[i], s[|t.children[i].prefix|..], path + t.children[i].prefix);
    if t.value.None? {
      assert Matches(t, s, path) == rest;
    } else {
      assert Matches(t, s, path)[1..] == rest;
    }
  }

  lemma {:induction false} UpToMeaning<T>(m: seq<(string, T)>, fn: (T, string) -> bool)
    ensures UpTo(m, fn) <= m
    ensures forall i :: 0 <= i < |UpTo(m, fn)| - 1 ==> !fn(m[i].1, m[i].0)
    ensures UpTo(m, fn) != m ==> UpTo(m, fn) != [] && var l := UpTo(m, fn)[|UpTo(m, fn)| - 1]; fn(l.1, l.0)
  {
    if m != [] {
      UpToMeaning(m[1..], fn);
      assert m == [m[0]] + m[1..];
    }
  }

  /**
   The whole promise of `MatchAll`: called back on exactly the stored prefixes of `s`, shortest
   first, until a callback returns true.
   */
  lemma MatchAllMeaning<T>(t: Tree<T>, s: string, fn: (T, string) -> bool)
    requires WellFormed(t)
    ensures ListsPrefixes(Matches(t, s, ""), Contents(t), s)
    ensures var calls, all := UpTo(Matches(t, s, ""), fn), Matches(t, s, "");
            && calls <= all
            && (forall i :: 0 <= i < |calls| - 1 ==> !fn(calls[i].1, calls[i].0))
            && (calls != all ==> calls != [] && fn(calls[|calls| - 1].1, calls[|calls| - 1].0))
  {
    hide Contents;
    MatchesIsScan(t, s, "");
    ScanMeaning(Contents(t), s);
    UpToMeaning(Matches(t, s, ""), fn);
  }

  /** What the first match is: the shortest stored prefix. */
  lemma FirstMatchIsShortest<T>(t: Tree<T>, s: string)
    requires WellFormed(t)
    ensures var all := Matches(t, s, "");
            if all == [] then forall k :: k in Contents(t) ==> !(k <= s)
            else var (k, v) := all[0];
                 && k <= s && k in Contents(t) && Contents(t)[k] == v
                 && forall k' :: k' in Contents(t) && k' <= s ==> |k| <= |k'|
  {
    hide Contents, Scan, Matches;
    MatchesIsScan(t, s, "");
    ScanMeaning(Contents(t), s);
  }

  // ---------------------------------------------------------------- sequences of insertions

  /** The tree after a sequence of calls of `Insert`, refused ones included. */
  function Build<T>(ops: seq<(string, T)>): Tree<T> {
    if ops == [] then Node("", [], None)
    else
      var (key, value) := ops[|ops| - 1];
      var t := Build(ops[..|ops| - 1]);
      if key == "" then t
      else match Insert(t, key, value) case Duplicate => t case Inserted(t') => t'
  }

  lemma BuildOneMore<T>(ops: seq<(string, T)>, key: string, value: T)
    ensures Build(ops + [(key, value)]) ==
            if key == "" then Build(ops)
            else match Insert(Build(ops), key, value) case Duplicate => Build(ops) case Inserted(t) => t
  {
    assert (ops + [(key, value)])[..|ops|] == ops;
  }

  /** Position `i` is the first insertion of `key`. */
  ghost predicate FirstOf<T>(ops: seq<(string, T)>, i: nat, key: string) {
    i < |ops| && ops[i].0 == key && forall j :: 0 <= j < i ==> ops[j].0 != key
  }

  /** A tree holds the first value of every nonempty key it was ever given. */
  lemma {:induction false} BuildKeepsFirst<T>(ops: seq<(string, T)>)
    ensures WellFormed(Build(ops)) && Build(ops).prefix == "" && Build(ops).value.None?
    ensures forall k :: k in Contents(Build(ops)) <==> k != "" && exists i: nat :: FirstOf(ops, i, k)
    ensures forall i: nat, k :: k != "" && FirstOf(ops, i, k) ==> k in Contents(Build(ops)) && Contents(Build(ops))[k] == ops[i].1
  {
    BuildContents(ops);
    forall k ensures k in Contents(Build(ops)) <==> k != "" && exists i: nat :: FirstOf(ops, i, k) {
      FirstsHas(ops, k);
    }
    forall i: nat, k | k != "" && FirstOf(ops, i, k)
      ensures k in Contents(Build(ops)) && Contents(Build(ops))[k] == ops[i].1
    {
      FirstsGives(ops, i, k);
    }
  }

  /** The map that keeps the first value given for each nonempty key. */
  ghost function Firsts<T>(ops: seq<(string, T)>): map<string, T> {
    if ops == [] then map[]
    else
      var (key, value) := ops[|ops| - 1];
      var m := Firsts(ops[..|ops| - 1]);
      if key == "" || key in m then m else m[key := value]
  }

  lemma {:induction false} BuildContents<T>(ops: seq<(string, T)>)
    ensures WellFormed(Build(ops)) && Build(ops).prefix == "" && Build(ops).value.None?
    ensures Contents(Build(ops)) == Firsts(ops)
  {
    hide Contents, Insert;
    if ops == [] {
      NoChildren<T>("", None);
    } else {
      var n := |ops| - 1;
      BuildContents(ops[..n]);
      if ops[n].0 != "" {
        InsertRefinesMap(Build(ops[..n]), ops[n].0, ops[n].1);
      }
    }
  }

  lemma {:induction false} FirstsHas<T>(ops: seq<(string, T)>, k: string)
    ensures k in Firsts(ops) <==> k != "" && exists i: nat :: FirstOf(ops, i, k)
  {
    if ops != [] {
      var n := |ops| - 1;
      FirstsHas(ops[..n], k);
      if k != "" && (ops[n].0 == k || exists i: nat :: FirstOf(ops[..n], i, k)) {
        if i: nat :| FirstOf(ops[..n], i, k) {
          assert FirstOf(ops, i, k);
        }
        var i := FirstExists(ops, k);
      }
      if i: nat :| FirstOf(ops, i, k) {
        assert i < n ==> FirstOf(ops[..n], i, k);
      }
    }
  }

  lemma {:induction false} FirstsGives<T>(ops: seq<(string, T)>, i: nat, k: string)
    requires k != "" && FirstOf(ops, i, k)
    ensures k in Firsts(ops) && Firsts(ops)[k] == ops[i].1
  {
    var n := |ops| - 1;
    if i < n {
      FirstsGives(ops[..n], i, k);
    } else {
      FirstsHas(ops[..n], k);
    }
  }

  lemma {:induction false} FirstExists<T>(ops: seq<(string, T)>, key: string) returns (i: nat)
    requires exists j :: 0 <= j < |ops| && ops[j].0 == key
    ensures FirstOf(ops, i, key)
  {
    i := 0;
    while ops[i].0 != key
      invariant i < |ops| && forall j :: 0 <= j < i ==> ops[j].0 != key
      decreases |ops| - i
    {
      i := i + 1;
    }
  }
}
