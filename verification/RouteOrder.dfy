/**
 The order in which routes are registered: the comparison of two paths, and what any list
 sorted by it is worth.
 */
module RouteOrder {
  import opened Text

  // ---------------------------------------------------------------- segments of a path

  function TrimLeft(p: string): string {
    if p != "" && p[0] == '/' then TrimLeft(p[1..]) else p
  }

  function TrimRight(p: string): string {
    if p != "" && p[|p| - 1] == '/' then TrimRight(p[..|p| - 1]) else p
  }

  function Trim(p: string): string {
    TrimRight(TrimLeft(p))
  }

  function Priority(segment: string): (r: int)
    ensures r == 1 <==> segment != "" && segment[0] == ':'
    ensures r == 2 <==> '*' in segment && !(":" <= segment)
    ensures 0 <= r <= 2
  {
    if ":" <= segment then 1 else if '*' in segment then 2 else 0
  }

  function Segments(p: string): (r: seq<string>)
    ensures r != []
  {
    Split(Trim(p), '/')
  }

  function Scores(p: string): (r: seq<int>)
    ensures |r| == |Segments(p)|
    ensures forall k :: 0 <= k < |r| ==> r[k] == Priority(Segments(p)[k])
  {
    seq(|Segments(p)|, k requires 0 <= k < |Segments(p)| => Priority(Segments(p)[k]))
  }

  // ---------------------------------------------------------------- the comparison

  /** Lexicographic, with the end of a list greater than any score. */
  predicate Less(a: seq<int>, b: seq<int>) {
    a != [] && (b == [] || (if a[0] != b[0] then a[0] < b[0] else Less(a[1..], b[1..])))
  }

  /** Where two lists of scores first differ, if only in that one of them ends. */
  predicate DifferFirst(a: seq<int>, b: seq<int>, k: nat) {
    && k <= |a| && k <= |b| && a[..k] == b[..k]
    && (k < |a| || k < |b|)
    && (k < |a| && k < |b| ==> a[k] != b[k])
  }

  lemma {:induction false} LessAt(a: seq<int>, b: seq<int>, k: nat)
    requires DifferFirst(a, b, k)
    ensures Less(a, b) <==> k < |a| && (k == |b| || a[k] < b[k])
  {
    if k > 0 {
      assert a[0] == a[..k][0] == b[..k][0] == b[0];
      assert a[1..][..k - 1] == a[..k][1..] == b[..k][1..] == b[1..][..k - 1];
      LessAt(a[1..], b[1..], k - 1);
    }
  }

  method ComparePaths(p1: string, p2: string) returns (r: bool)
    ensures r == Before(p1, p2)
  {
    var s1, s2 := Segments(p1), Segments(p2);
    ghost var a, b := Scores(p1), Scores(p2);
    var k := 0;
    while k < |s1| && k < |s2|
      invariant k <= |s1| && k <= |s2| && a[..k] == b[..k]
    {
      var score1, score2 := Priority(s1[k]), Priority(s2[k]);
      if score1 != score2 {
        LessAt(a, b, k);
        return score1 < score2;
      }
      k := k + 1;
    }
    if |s1| == |s2| {
      assert a == a[..k] == b[..k] == b;
      Irreflexive(a);
    } else {
      LessAt(a, b, k);
    }
    return |s1| > |s2|;
  }

  // ---------------------------------------------------------------- it is a strict weak order

  lemma {:induction false} Irreflexive(a: seq<int>)
    ensures !Less(a, a)
  {
    if a != [] {
      Irreflexive(a[1..]);
    }
  }

  lemma {:induction false} Transitive(a: seq<int>, b: seq<int>, c: seq<int>)
    requires Less(a, b) && Less(b, c)
    ensures Less(a, c)
  {
    if b != [] && c != [] && a[0] == b[0] == c[0] {
      Transitive(a[1..], b[1..], c[1..]);
    }
  }

  lemma {:induction false} IncomparableIsEqual(a: seq<int>, b: seq<int>)
    ensures !Less(a, b) && !Less(b, a) <==> a == b
  {
    if a != [] && b != [] && a[0] == b[0] {
      IncomparableIsEqual(a[1..], b[1..]);
      assert a == [a[0]] + a[1..] && b == [b[0]] + b[1..];
    }
  }

  predicate Before(p: string, q: string) {
    Less(Scores(p), Scores(q))
  }

  /**
   The comparison is a strict weak order: irreflexive, transitive, and two paths that neither
   of them precedes the other are interchangeable: they compare alike with every third one.
   */
  lemma StrictWeakOrder(p: string, q: string, r: string)
    ensures !Before(p, p)
    ensures Before(p, q) && Before(q, r) ==> Before(p, r)
    ensures !Before(p, q) && !Before(q, p) ==> (Before(p, r) <==> Before(q, r)) && (Before(r, p) <==> Before(r, q))
    ensures !Before(p, q) && !Before(q, p) <==> Scores(p) == Scores(q)
  {
    Irreflexive(Scores(p));
    IncomparableIsEqual(Scores(p), Scores(q));
    if Before(p, q) && Before(q, r) {
      Transitive(Scores(p), Scores(q), Scores(r));
    }
  }

  /** Whether, segment for segment, `q` is at least as open as `p`, which goes at least as deep. */
  predicate Widens(q: string, p: string) {
    |Segments(q)| <= |Segments(p)|
    && forall k :: 0 <= k < |Segments(q)| ==> Priority(Segments(p)[k]) <= Priority(Segments(q)[k])
  }

  /** A path that another one widens is tried first, unless the two are of the same kind throughout. */
  lemma NarrowFirst(p: string, q: string)
    requires Widens(q, p)
    ensures Before(p, q) || Scores(p) == Scores(q)
  {
    PointwiseLess(Scores(p), Scores(q));
  }

  lemma {:induction false} PointwiseLess(a: seq<int>, b: seq<int>)
    requires |b| <= |a| && forall k :: 0 <= k < |b| ==> a[k] <= b[k]
    ensures Less(a, b) || a == b
  {
    if b != [] && a[0] == b[0] {
      PointwiseLess(a[1..], b[1..]);
      assert a == [a[0]] + a[1..] && b == [b[0]] + b[1..];
    }
  }

  // ---------------------------------------------------------------- paths by their pieces

  function Slashes(n: nat): string {
    seq(n, i => '/')
  }

  /** A path as it may be written: pieces with a slash between them, and any number of slashes around. */
  function Path(before: nat, pieces: seq<string>, after: nat): string
    requires pieces != []
  {
    Slashes(before) + Join(pieces, '/') + Slashes(after)
  }

  predicate ArePieces(pieces: seq<string>) {
    pieces != [] && forall p <- pieces :: p != "" && '/' !in p
  }

  lemma {:induction false} TrimsLeft(n: nat, s: string)
    requires s != "" && s[0] != '/'
    ensures TrimLeft(Slashes(n) + s) == s
  {
    if n > 0 {
      assert (Slashes(n) + s)[1..] == Slashes(n - 1) + s;
      TrimsLeft(n - 1, s);
    } else {
      assert Slashes(0) + s == s;
    }
  }

  lemma {:induction false} TrimsRight(n: nat, s: string)
    requires s != "" && s[|s| - 1] != '/'
    ensures TrimRight(s + Slashes(n)) == s
  {
    if n > 0 {
      var t := s + Slashes(n);
      assert t[..|t| - 1] == s + Slashes(n - 1);
      TrimsRight(n - 1, s);
    } else {
      assert s + Slashes(0) == s;
    }
  }

  lemma SegmentsOfPath(before: nat, pieces: seq<string>, after: nat)
    requires ArePieces(pieces)
    ensures Segments(Path(before, pieces, after)) == pieces
  {
    var s := Join(pieces, '/');
    forall i | 0 <= i < |pieces| ensures pieces[i] != "" && '/' !in pieces[i] {
      assert pieces[i] in pieces;
    }
    JoinEnds(pieces, '/');
    assert Path(before, pieces, after) == Slashes(before) + (s + Slashes(after));
    TrimsLeft(before, s + Slashes(after));
    TrimsRight(after, s);
    JoinSplit(pieces, '/');
  }

  lemma {:induction false} LessWitness(a: seq<int>, b: seq<int>) returns (k: nat)
    requires Less(a, b)
    ensures k < |a| && k <= |b| && a[..k] == b[..k] && (k == |b| || a[k] < b[k])
  {
    if b == [] || a[0] != b[0] {
      k := 0;
    } else {
      var l := LessWitness(a[1..], b[1..]);
      k := l + 1;
      assert a[..k] == [a[0]] + a[1..][..l] && b[..k] == [b[0]] + b[1..][..l];
    }
  }

  /** At place `k` the first of two lists of pieces wins: it is of lower priority number there, or the second has ended. */
  predicate WinsAt(ps: seq<string>, qs: seq<string>, k: nat) {
    && k < |ps| && k <= |qs|
    && (forall j :: 0 <= j < k ==> Priority(ps[j]) == Priority(qs[j]))
    && (k == |qs| || Priority(ps[k]) < Priority(qs[k]))
  }

  /**
   Which of two paths comes first is decided at the first place where their pieces are of different
   kinds, or where one path ends: the longer one then comes first.
   */
  lemma FirstDifferenceDecides(ps: seq<string>, qs: seq<string>, b: nat, a: nat, b': nat, a': nat)
    requires ArePieces(ps) && ArePieces(qs)
    ensures Before(Path(b, ps, a), Path(b', qs, a')) <==> exists k: nat :: WinsAt(ps, qs, k)
  {
    SegmentsOfPath(b, ps, a);
    SegmentsOfPath(b', qs, a');
    var s, t := Scores(Path(b, ps, a)), Scores(Path(b', qs, a'));
    if Less(s, t) {
      var k := LessWitness(s, t);
      forall j | 0 <= j < k ensures Priority(ps[j]) == Priority(qs[j]) {
        assert s[..k][j] == t[..k][j];
      }
      assert WinsAt(ps, qs, k);
    }
    if k: nat :| WinsAt(ps, qs, k) {
      assert s[..k] == t[..k];
      LessAt(s, t, k);
    }
  }

  /** A fixed piece comes before a parameter, and a parameter before a wildcard, whatever follows. */
  lemma FixedThenParameterThenWildcard(front: seq<string>, fixed: string, name: string, wild: string,
                                       rest: seq<string>, rest': seq<string>, b: nat, a: nat, b': nat, a': nat)
    requires ArePieces(front + [fixed] + rest) && ArePieces(front + [":" + name] + rest')
    requires ArePieces(front + [":" + name] + rest) && ArePieces(front + [wild] + rest')
    requires !(":" <= fixed) && '*' !in fixed && !(":" <= wild) && '*' in wild
    ensures Before(Path(b, front + [fixed] + rest, a), Path(b', front + [":" + name] + rest', a'))
    ensures Before(Path(b, front + [":" + name] + rest, a), Path(b', front + [wild] + rest', a'))
  {
    FirstDifferenceDecides(front + [fixed] + rest, front + [":" + name] + rest', b, a, b', a');
    FirstDifferenceDecides(front + [":" + name] + rest, front + [wild] + rest', b, a, b', a');
    assert WinsAt(front + [fixed] + rest, front + [":" + name] + rest', |front|);
    assert WinsAt(front + [":" + name] + rest, front + [wild] + rest', |front|);
  }

  /** The root has one empty segment. */
  lemma RootPath(n: nat)
    ensures Segments(Slashes(n)) == [""]
  {
    TrimsAll(n);
  }

  lemma {:induction false} TrimsAll(n: nat)
    ensures TrimLeft(Slashes(n)) == ""
  {
    if n > 0 {
      assert Slashes(n)[1..] == Slashes(n - 1);
      TrimsAll(n - 1);
    }
  }

  // ---------------------------------------------------------------- sorted registration

  /** What a sort by the comparison promises: no path precedes the one before it. */
  ghost predicate Sorted(s: seq<string>) {
    forall i :: 0 <= i < |s| - 1 ==> !Before(s[i + 1], s[i])
  }

  /** No route is registered before one that it loses to. */
  lemma {:induction false} NoneTooEarly(s: seq<string>, i: nat, j: nat)
    requires Sorted(s) && i < j < |s|
    ensures !Before(s[j], s[i])
  {
    if i + 1 < j {
      NoneTooEarly(s, i, j - 1);
      assert !Before(s[j - 1 + 1], s[j - 1]);
      StrictWeakOrder(s[j - 1], s[j], s[i]);
    } else {
      assert j == i + 1;
    }
  }

  /** Everything up to a place precedes whatever the path there precedes. */
  lemma UpToPrecedes(s: seq<string>, k: nat, i: nat, q: string)
    requires Sorted(s) && i <= k < |s| && Before(s[k], q)
    ensures Before(s[i], q)
  {
    if i < k {
      NoneTooEarly(s, i, k);
      StrictWeakOrder(s[i], s[k], q);
    }
  }

  /** Two sorted lists of the same paths: the first `k + 1` of one would have to be among the first `k` of the other. */
  lemma NoRoomBelow(s: seq<string>, t: seq<string>, k: nat)
    requires Sorted(s) && Sorted(t) && multiset(s) == multiset(t) && k < |s| == |t|
    ensures !Before(s[k], t[k])
  {
    if Before(s[k], t[k]) {
      var low, below := multiset(s[..k + 1]), multiset(t[..k]);
      forall x ensures low[x] <= below[x] {
        if x in low {
          var i :| 0 <= i <= k && s[i] == x;
          UpToPrecedes(s, k, i, t[k]);
          NoneBelow(t, k, x);
          CountsWithin(s, t, k, x);
        }
      }
      SmallerCounts(low, below);
    }
  }

  lemma SmallerCounts(a: multiset<string>, b: multiset<string>)
    requires forall x :: a[x] <= b[x]
    ensures |a| <= |b|
  {
    assert b == a + (b - a);
  }

  lemma CountsWithin(s: seq<string>, t: seq<string>, k: nat, x: string)
    requires multiset(s) == multiset(t) && k < |s| == |t| && x !in t[k..]
    ensures multiset(s[..k + 1])[x] <= multiset(t[..k])[x]
  {
    assert s == s[..k + 1] + s[k + 1..] && t == t[..k] + t[k..];
    assert multiset(s)[x] == multiset(s[..k + 1])[x] + multiset(s[k + 1..])[x];
    assert multiset(t)[x] == multiset(t[..k])[x] + multiset(t[k..])[x];
    assert x !in multiset(t[k..]);
  }

  lemma NoneBelow(t: seq<string>, k: nat, x: string)
    requires Sorted(t) && k < |t| && Before(x, t[k])
    ensures x !in t[k..]
  {
    if x in t[k..] {
      var j :| k <= j < |t| && t[j] == x;
      if j == k {
        StrictWeakOrder(x, x, x);
      } else {
        NoneTooEarly(t, k, j);
      }
    }
  }

  /**
   Registration does not depend on how the list was sorted, or on the order it was in before,
   but for routes that are of the same kind segment by segment.
   */
  lemma OrderIsUnique(s: seq<string>, t: seq<string>, k: nat)
    requires Sorted(s) && Sorted(t) && multiset(s) == multiset(t) && k < |s|
    ensures |s| == |t| && Scores(s[k]) == Scores(t[k])
  {
    assert |s| == |multiset(s)| == |multiset(t)| == |t|;
    NoRoomBelow(s, t, k);
    NoRoomBelow(t, s, k);
    StrictWeakOrder(s[k], t[k], t[k]);
  }
}
