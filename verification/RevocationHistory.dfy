/** What a revoker ought to answer, said over the history of its events. */
module RevocationHistory {
  import opened RadixMatch

  /** Times are nanoseconds since the epoch. */
  const NANOS := 1_000_000_000

  datatype Event =
    | Insert(scope: string, time: int, reason: string)
    | InsertPrefix(scope: string, time: int, reason: string)
    | Rotate

  datatype RevokeSet = RevokeSet(when: int, reason: string)

  /** Whole seconds since the epoch, rounded down. */
  function Unix(time: int): int {
    time / NANOS
  }

  predicate Covers(r: RevokeSet, issuedAt: int) {
    issuedAt <= r.when * NANOS
  }

  function Stored(e: Event): RevokeSet
    requires !e.Rotate?
  {
    RevokeSet(Unix(e.time), e.reason)
  }

  /** A revocation is kept as the whole second that it falls into. */
  lemma WholeSeconds(time: int)
    ensures Unix(time) * 1_000_000_000 <= time < (Unix(time) + 1) * 1_000_000_000
  {
  }

  /** For what was issued at a whole second that is exact: it is covered if and only if it was not issued after the revocation. */
  lemma CoversWhatIsOlder(e: Event, second: int)
    requires !e.Rotate?
    ensures Covers(Stored(e), second * 1_000_000_000) <==> second * 1_000_000_000 <= e.time
    ensures Stored(e).reason == e.reason
  {
    WholeSeconds(e.time);
  }

  /** How often the buckets were rotated after event `i`. */
  function RotationsAfter(h: seq<Event>, i: nat): nat
    requires i < |h|
  {
    if i == |h| - 1 then 0
    else RotationsAfter(h[..|h| - 1], i) + if h[|h| - 1].Rotate? then 1 else 0
  }

  /** Event `i` revokes a prefix that was new to the bucket of its time. */
  ghost predicate FirstInBucket(h: seq<Event>, i: nat) {
    && i < |h| && h[i].InsertPrefix? && h[i].scope != ""
    && forall j :: 0 <= j < i && h[j].InsertPrefix? && h[j].scope == h[i].scope
                   ==> RotationsAfter(h, j) != RotationsAfter(h, i)
  }

  /** Event `i` revokes `scope` as it was issued at `issuedAt`, if `keep` buckets are kept. */
  ghost predicate RevokesPrefix(h: seq<Event>, keep: nat, i: nat, scope: string, issuedAt: int) {
    && FirstInBucket(h, i)
    && h[i].scope <= scope
    && RotationsAfter(h, i) < keep
    && issuedAt <= Unix(h[i].time) * NANOS
  }

  /** Event `i` takes precedence over every other event that revokes `scope`: newest bucket, then shortest prefix. */
  ghost predicate Decides(h: seq<Event>, keep: nat, i: nat, scope: string, issuedAt: int) {
    && RevokesPrefix(h, keep, i, scope, issuedAt)
    && forall j: nat :: RevokesPrefix(h, keep, j, scope, issuedAt) ==>
         || RotationsAfter(h, i) < RotationsAfter(h, j)
         || (RotationsAfter(h, i) == RotationsAfter(h, j) && |h[i].scope| <= |h[j].scope|)
  }

  /** Event `i` is the latest exact revocation of `scope`. */
  ghost predicate LatestExact(h: seq<Event>, i: nat, scope: string) {
    && i < |h| && h[i].Insert? && h[i].scope == scope
    && forall j :: i < j < |h| && h[j].Insert? ==> h[j].scope != scope
  }

  /** The map of exact revocations: a later one replaces an earlier one. */
  ghost function Exact(h: seq<Event>): map<string, RevokeSet> {
    if h == [] then map[]
    else
      var m := Exact(h[..|h| - 1]);
      match h[|h| - 1]
      case Insert(scope, time, reason) => m[scope := RevokeSet(Unix(time), reason)]
      case _ => m
  }

  lemma {:induction false} ExactFromHistory(h: seq<Event>, scope: string)
    ensures scope in Exact(h) <==> exists i: nat :: LatestExact(h, i, scope)
    ensures forall i: nat :: LatestExact(h, i, scope) ==> Exact(h)[scope] == Stored(h[i])
  {
    if h != [] {
      var n := |h| - 1;
      var before := h[..n];
      ExactFromHistory(before, scope);
      if h[n].Insert? && h[n].scope == scope {
        assert LatestExact(h, n, scope);
      } else {
        forall i: nat ensures LatestExact(h, i, scope) <==> LatestExact(before, i, scope) {}
      }
    }
  }

  // ---------------------------------------------------------------- what the buckets hold

  /** The insertions that went into the bucket that is now the `b`-th newest. */
  ghost function BucketOps(h: seq<Event>, b: nat): seq<(string, RevokeSet)> {
    if h == [] then []
    else
      var before := h[..|h| - 1];
      match h[|h| - 1]
      case Rotate => if b == 0 then [] else BucketOps(before, b - 1)
      case InsertPrefix(scope, time, reason) =>
        BucketOps(before, b) + if b == 0 then [(scope, RevokeSet(Unix(time), reason))] else []
      case Insert(_, _, _) => BucketOps(before, b)
  }

  /** Event `i` put `key` into the bucket that is now the `b`-th newest, and was not refused. */
  ghost predicate Entered(h: seq<Event>, i: nat, b: nat, key: string) {
    FirstInBucket(h, i) && h[i].scope == key && RotationsAfter(h, i) == b
  }

  lemma ExtendEntered(h: seq<Event>, i: nat, b: nat, key: string)
    requires h != [] && i < |h| - 1
    ensures var turned := if h[|h| - 1].Rotate? then 1 else 0;
            Entered(h, i, b, key) <==> b >= turned && Entered(h[..|h| - 1], i, b - turned, key)
  {
  }

  lemma {:induction false} SomeEntered(h: seq<Event>, j: nat, b: nat) returns (i: nat)
    requires j < |h| && h[j].InsertPrefix? && h[j].scope != "" && RotationsAfter(h, j) == b
    ensures i <= j && Entered(h, i, b, h[j].scope)
    decreases j
  {
    if j' :| 0 <= j' < j && h[j'].InsertPrefix? && h[j'].scope == h[j].scope && RotationsAfter(h, j') == b {
      i := SomeEntered(h, j', b);
    } else {
      i := j;
    }
  }

  /** The newest event, when it revokes a prefix. */
  lemma LastEntered(before: seq<Event>, e: Event, key: string)
    requires e.InsertPrefix?
    ensures Entered(before + [e], |before|, 0, key) <==>
            key != "" && e.scope == key && !exists i: nat :: Entered(before, i, 0, key)
  {
    var h, n := before + [e], |before|;
    assert h[..n] == before;
    if i: nat :| Entered(before, i, 0, key) {
      ExtendEntered(h, i, 0, key);
    } else if j :| 0 <= j < n && h[j].InsertPrefix? && h[j].scope == key && key != "" && RotationsAfter(h, j) == 0 {
      var i := SomeEntered(before, j, 0);
    }
  }

  /** A bucket's trie holds exactly the entries of the events that entered it. */
  lemma {:induction false} BucketFromHistory(h: seq<Event>, b: nat, key: string)
    ensures key in Firsts(BucketOps(h, b)) <==> exists i: nat :: Entered(h, i, b, key)
    ensures forall i: nat :: Entered(h, i, b, key) ==>
              key in Firsts(BucketOps(h, b)) && Firsts(BucketOps(h, b))[key] == Stored(h[i])
  {
    if h != [] {
      var n := |h| - 1;
      var before, e := h[..n], h[n];
      forall i: nat | i < n
        ensures var turned := if e.Rotate? then 1 else 0;
                Entered(h, i, b, key) <==> b >= turned && Entered(before, i, b - turned, key)
      {
        ExtendEntered(h, i, b, key);
      }
      if e.Rotate? {
        if b > 0 {
          var b' := b - 1;
          BucketFromHistory(before, b', key);
          if i: nat :| Entered(before, i, b', key) {
            assert Entered(h, i, b, key);
          }
        }
      } else {
        BucketFromHistory(before, b, key);
        if e.InsertPrefix? {
          assert before + [e] == h;
          LastEntered(before, e, key);
        }
        if e.InsertPrefix? && b == 0 {
          assert BucketOps(h, b)[..|BucketOps(before, b)|] == BucketOps(before, b);
        } else {
          assert BucketOps(h, b) == BucketOps(before, b);
        }
        if i: nat :| Entered(before, i, b, key) {
          assert Entered(h, i, b, key);
        }
      }
    }
  }

  // ---------------------------------------------------------------- one more event

  lemma AfterEvent(h: seq<Event>, e: Event)
    ensures forall i :: 0 <= i < |h| ==> RotationsAfter(h + [e], i) == RotationsAfter(h, i) + if e.Rotate? then 1 else 0
    ensures RotationsAfter(h + [e], |h|) == 0
    ensures Exact(h + [e]) == if e.Insert? then Exact(h)[e.scope := Stored(e)] else Exact(h)
  {
    assert (h + [e])[..|h|] == h;
  }

  lemma BucketsAfterEvent(h: seq<Event>, e: Event, b: nat)
    ensures BucketOps(h + [e], b) ==
            match e
            case Rotate => if b == 0 then [] else BucketOps(h, b - 1)
            case InsertPrefix(scope, _, _) => if b == 0 then BucketOps(h, b) + [(scope, Stored(e))] else BucketOps(h, b)
            case Insert(_, _, _) => BucketOps(h, b)
  {
    assert (h + [e])[..|h|] == h;
  }
}
