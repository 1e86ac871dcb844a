/** The revoker: exact revocations in a map, prefix revocations in a rotating list of tries. */
module Revoker {
  import opened RadixTree
  import opened RadixMatch
  import opened RadixTrie
  import opened RevocationHistory
  import opened RevokeEffect

  /** The first bucket, newest first, with a prefix of `scope` that covers `issuedAt`, and its shortest such prefix. */
  ghost predicate Answers(buckets: seq<map<string, RevokeSet>>, scope: string, issuedAt: int, b: nat, key: string) {
    && b < |buckets| && key <= scope && key in buckets[b] && Covers(buckets[b][key], issuedAt)
    && (forall k :: k in buckets[b] && k <= scope && Covers(buckets[b][k], issuedAt) ==> |key| <= |k|)
    && forall a, k :: 0 <= a < b && k in buckets[a] && k <= scope ==> !Covers(buckets[a][k], issuedAt)
  }

  /** The walk's verdict on one bucket. */
  lemma WalkVerdict(t: Tree<RevokeSet>, scope: string, issuedAt: int)
    requires WellFormed(t)
    ensures var fn := (v: RevokeSet, k: string) => Covers(v, issuedAt);
            var calls := UpTo(Matches(t, scope, ""), fn);
            if calls != [] && Covers(calls[|calls| - 1].1, issuedAt) then
              var (key, v) := calls[|calls| - 1];
              && key <= scope && key in Contents(t) && Contents(t)[key] == v
              && forall k :: k in Contents(t) && k <= scope && Covers(Contents(t)[k], issuedAt) ==> |key| <= |k|
            else
              forall k :: k in Contents(t) && k <= scope ==> !Covers(Contents(t)[k], issuedAt)
  {
    hide Contents, Matches, WellFormed, UpTo, Covers;
    var fn := (v: RevokeSet, k: string) => Covers(v, issuedAt);
    MatchAllMeaning(t, scope, fn);
    var all := Matches(t, scope, "");
    var calls := UpTo(all, fn);
    forall k | k in Contents(t) && k <= scope && Covers(Contents(t)[k], issuedAt)
      ensures calls != [] && |calls[|calls| - 1].0| <= |k| && Covers(calls[|calls| - 1].1, issuedAt)
    {
      var i :| 0 <= i < |all| && all[i].0 == k;
      assert fn(all[i].1, all[i].0);
      assert i >= |calls| - 1;
    }
  }

  /** `maps` are the buckets, newest first, that are kept after history `h`. */
  ghost predicate MapsFromHistory(h: seq<Event>, keep: nat, maps: seq<map<string, RevokeSet>>) {
    && |maps| <= keep
    && (forall b :: 0 <= b < |maps| ==> maps[b] == Firsts(BucketOps(h, b)))
    && (|maps| < keep ==> forall i :: 0 <= i < |h| ==> RotationsAfter(h, i) < |maps|)
  }

  /** An event that revokes is an entry of a kept bucket, and the other way round. */
  lemma EventIsEntry(h: seq<Event>, keep: nat, maps: seq<map<string, RevokeSet>>, i: nat, scope: string, issuedAt: int)
    requires MapsFromHistory(h, keep, maps) && RevokesPrefix(h, keep, i, scope, issuedAt)
    ensures var b := RotationsAfter(h, i);
            b < |maps| && h[i].scope in maps[b] && maps[b][h[i].scope] == Stored(h[i]) && Covers(Stored(h[i]), issuedAt)
  {
    BucketFromHistory(h, RotationsAfter(h, i), h[i].scope);
    assert Entered(h, i, RotationsAfter(h, i), h[i].scope);
  }

  lemma EntryIsEvent(h: seq<Event>, keep: nat, maps: seq<map<string, RevokeSet>>, b: nat, key: string, scope: string, issuedAt: int)
      returns (i: nat)
    requires MapsFromHistory(h, keep, maps) && b < |maps| && key in maps[b] && key <= scope && Covers(maps[b][key], issuedAt)
    ensures RevokesPrefix(h, keep, i, scope, issuedAt) && Entered(h, i, b, key) && maps[b][key] == Stored(h[i])
  {
    BucketFromHistory(h, b, key);
    i :| Entered(h, i, b, key);
  }

  lemma AnswerDecides(h: seq<Event>, keep: nat, maps: seq<map<string, RevokeSet>>, scope: string, issuedAt: int, b: nat, key: string)
    requires MapsFromHistory(h, keep, maps) && Answers(maps, scope, issuedAt, b, key)
    ensures exists i: nat :: Decides(h, keep, i, scope, issuedAt) && h[i].reason == maps[b][key].reason
  {
    var i := EntryIsEvent(h, keep, maps, b, key, scope, issuedAt);
    forall j: nat | RevokesPrefix(h, keep, j, scope, issuedAt)
      ensures || RotationsAfter(h, i) < RotationsAfter(h, j)
              || (RotationsAfter(h, i) == RotationsAfter(h, j) && |h[i].scope| <= |h[j].scope|)
    {
      EventIsEntry(h, keep, maps, j, scope, issuedAt);
    }
    assert Decides(h, keep, i, scope, issuedAt);
  }

  lemma NoAnswerNoEvent(h: seq<Event>, keep: nat, maps: seq<map<string, RevokeSet>>, scope: string, issuedAt: int)
    requires MapsFromHistory(h, keep, maps)
    requires forall a, k :: 0 <= a < |maps| && k in maps[a] && k <= scope ==> !Covers(maps[a][k], issuedAt)
    ensures !exists i: nat :: RevokesPrefix(h, keep, i, scope, issuedAt)
  {
    forall i: nat ensures !RevokesPrefix(h, keep, i, scope, issuedAt) {
      if RevokesPrefix(h, keep, i, scope, issuedAt) {
        EventIsEntry(h, keep, maps, i, scope, issuedAt);
        assert false;
      }
    }
  }

  class Revoker {
    const keep: nat
    var buckets: seq<Trie<RevokeSet>>
    var exact: map<string, RevokeSet>

    ghost var history: seq<Event>
    ghost var Repr: set<object>

    ghost predicate Valid()
      reads this, Repr
      ensures Valid() ==> this in Repr
    {
      && this in Repr && 1 <= keep && 1 <= |buckets| <= keep
      && (forall b :: 0 <= b < |buckets| ==>
            && buckets[b] in Repr && buckets[b].Repr <= Repr && this !in buckets[b].Repr
            && buckets[b].Valid()
            && buckets[b].Tree() == Build(BucketOps(history, b)))
      && (forall a, b :: 0 <= a < b < |buckets| ==> buckets[a].Repr !! buckets[b].Repr)
      && (|buckets| < keep ==> forall i :: 0 <= i < |history| ==> RotationsAfter(history, i) < |buckets|)
      && exact == Exact(history)
    }

    constructor (keep: nat)
      requires keep >= 1
      ensures Valid() && fresh(Repr) && history == [] && this.keep == keep
    {
      this.keep := keep;
      var trie := new Trie<RevokeSet>(RevokeSet(0, ""));
      buckets := [trie];
      exact := map[];
      history := [];
      Repr := {this} + trie.Repr;
    }

    /** One turn of the rotator. */
    method Rotate()
      requires Valid()
      modifies this
      ensures Valid() && fresh(Repr - old(Repr)) && history == old(history) + [Event.Rotate]
    {
      hide BucketOps, Exact, RotationsAfter, Build, Contents, WellFormed;
      var trie := new Trie<RevokeSet>(RevokeSet(0, ""));
      var next := [trie] + buckets;
      if |next| > keep {
        next := next[..keep];
      }
      AfterEvent(history, Event.Rotate);
      forall b: nat ensures BucketOps(history + [Event.Rotate], b) == if b == 0 then [] else BucketOps(history, b - 1) {
        BucketsAfterEvent(history, Event.Rotate, b);
      }
      buckets := next;
      Repr := Repr + trie.Repr;
      history := history + [Event.Rotate];
    }

    method Insert(scope: string, time: int, reason: string)
      requires Valid()
      modifies this
      ensures Valid() && Repr == old(Repr)
      ensures history == old(history) + [Event.Insert(scope, time, reason)]
    {
      hide BucketOps, Exact, RotationsAfter, Build, Contents, WellFormed;
      ghost var e := Event.Insert(scope, time, reason);
      AfterEvent(history, e);
      forall b: nat ensures BucketOps(history + [e], b) == BucketOps(history, b) {
        BucketsAfterEvent(history, e, b);
      }
      exact := exact[scope := RevokeSet(Unix(time), reason)];
      history := history + [e];
    }

    /** The trie may refuse the prefix; the caller is not told. */
    method InsertPrefix(scope: string, time: int, reason: string)
      requires Valid()
      modifies Repr
      ensures Valid() && fresh(Repr - old(Repr))
      ensures history == old(history) + [Event.InsertPrefix(scope, time, reason)]
    {
      hide BucketOps, Exact, RotationsAfter, Build, Contents, WellFormed, RadixTree.Insert;
      ghost var e := Event.InsertPrefix(scope, time, reason);
      AfterEvent(history, e);
      BuildOneMore(BucketOps(history, 0), scope, Stored(e));
      var newest := buckets[0];
      var _ := newest.Insert(scope, RevokeSet(Unix(time), reason));
      forall b: nat ensures BucketOps(history + [e], b) ==
                            if b == 0 then BucketOps(history, b) + [(scope, Stored(e))] else BucketOps(history, b) {
        BucketsAfterEvent(history, e, b);
      }
      Repr := Repr + newest.Repr;
      history := history + [e];
    }

    /** A request as it arrives at this node; a "*" makes it one for a prefix. */
    method Revoke(pattern: string, time: int, reason: string)
      requires Valid()
      modifies Repr
      ensures Valid() && fresh(Repr - old(Repr))
      ensures history == old(history) + [Requested(pattern, time, reason)]
    {
      var idx := Star(pattern);
      if idx == |pattern| {
        Insert(pattern, time, reason);
      } else {
        InsertPrefix(pattern[..idx], time, reason);
      }
    }

    method IsRevokedExact(scope: string, issuedAt: int) returns (revoked: bool, reason: string)
      requires Valid()
      ensures revoked <==> RevokedExact(history, scope, issuedAt)
      ensures revoked ==> exists i: nat :: LatestExact(history, i, scope) && reason == history[i].reason
      ensures !revoked ==> reason == ""
    {
      ExactFromHistory(history, scope);
      if scope in exact && Covers(exact[scope], issuedAt) {
        return true, exact[scope].reason;
      }
      return false, "";
    }

    method IsRevokedPrefix(scope: string, issuedAt: int) returns (revoked: bool, reason: string)
      requires Valid()
      ensures revoked <==> RevokedByPrefix(history, keep, scope, issuedAt)
      ensures revoked ==> exists i: nat :: Decides(history, keep, i, scope, issuedAt) && reason == history[i].reason
      ensures !revoked ==> reason == ""
    {
      hide Contents, Matches, WellFormed, UpTo;
      ghost var maps := BucketMaps();
      var fn := (v: RevokeSet, k: string) => Covers(v, issuedAt);
      var b := 0;
      while b < |buckets|
        invariant b <= |buckets|
        invariant forall a, k :: 0 <= a < b && k in maps[a] && k <= scope ==> !Covers(maps[a][k], issuedAt)
      {
        WalkVerdict(buckets[b].Tree(), scope, issuedAt);
        var found, calls := buckets[b].MatchAll(scope, fn);
        if found {
          var (key, v) := calls[|calls| - 1];
          AnswerDecides(history, keep, maps, scope, issuedAt, b, key);
          return true, v.reason;
        }
        b := b + 1;
      }
      NoAnswerNoEvent(history, keep, maps, scope, issuedAt);
      return false, "";
    }

    method IsRevoked(scope: string, issuedAt: int) returns (revoked: bool, reason: string)
      requires Valid()
      ensures revoked <==> Revoked(history, keep, scope, issuedAt)
      ensures RevokedExact(history, scope, issuedAt) ==>
                exists i: nat :: LatestExact(history, i, scope) && reason == history[i].reason
      ensures revoked && !RevokedExact(history, scope, issuedAt) ==>
                exists i: nat :: Decides(history, keep, i, scope, issuedAt) && reason == history[i].reason
      ensures !revoked ==> reason == ""
    {
      revoked, reason := IsRevokedExact(scope, issuedAt);
      if !revoked {
        revoked, reason := IsRevokedPrefix(scope, issuedAt);
      }
    }

    ghost function BucketMaps(): (maps: seq<map<string, RevokeSet>>)
      requires Valid()
      reads this, Repr
      ensures MapsFromHistory(history, keep, maps)
      ensures |maps| == |buckets| && forall b :: 0 <= b < |buckets| ==> maps[b] == Contents(buckets[b].Tree())
    {
      var h := history;
      var maps := seq(|buckets|, b requires 0 <= b => Firsts(BucketOps(h, b)));
      assert forall b :: 0 <= b < |buckets| ==> maps[b] == Contents(buckets[b].Tree()) by {
        forall b | 0 <= b < |buckets| ensures maps[b] == Contents(buckets[b].Tree()) {
          BuildContents(BucketOps(history, b));
        }
      }
      maps
    }
  }
}
