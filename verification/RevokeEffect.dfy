/** What one request to revoke does to the answers of a revoker, for every subject and every time of issue. */
module RevokeEffect {
  import opened RevocationHistory

  /** The position of the first "*", or the length. */
  function Star(pattern: string): (n: nat)
    ensures n <= |pattern| && '*' !in pattern[..n]
    ensures n < |pattern| ==> pattern[n] == '*'
  {
    if pattern == "" || pattern[0] == '*' then 0 else 1 + Star(pattern[1..])
  }

  /** The event that a request becomes: whatever comes behind the first "*" is not looked at. */
  function Requested(pattern: string, time: int, reason: string): Event {
    if Star(pattern) == |pattern| then Insert(pattern, time, reason)
    else InsertPrefix(pattern[..Star(pattern)], time, reason)
  }

  predicate Meant(pattern: string, scope: string) {
    if Star(pattern) == |pattern| then scope == pattern else pattern[..Star(pattern)] <= scope
  }

  ghost predicate RevokedExact(h: seq<Event>, scope: string, issuedAt: int) {
    exists i: nat :: LatestExact(h, i, scope) && Covers(Stored(h[i]), issuedAt)
  }

  ghost predicate RevokedByPrefix(h: seq<Event>, keep: nat, scope: string, issuedAt: int) {
    exists i: nat :: RevokesPrefix(h, keep, i, scope, issuedAt)
  }

  ghost predicate Revoked(h: seq<Event>, keep: nat, scope: string, issuedAt: int) {
    RevokedExact(h, scope, issuedAt) || RevokedByPrefix(h, keep, scope, issuedAt)
  }

  /** The trie of the newest bucket refuses the prefix: it is empty, or in there already. */
  ghost predicate Refused(h: seq<Event>, prefix: string) {
    prefix == "" || exists i: nat :: Entered(h, i, 0, prefix)
  }

  lemma EarlierKept(h: seq<Event>, e: Event, i: nat)
    requires i < |h|
    ensures (h + [e])[i] == h[i]
    ensures RotationsAfter(h + [e], i) == RotationsAfter(h, i) + if e.Rotate? then 1 else 0
    ensures FirstInBucket(h + [e], i) <==> FirstInBucket(h, i)
  {
    AfterEvent(h, e);
  }

  /** Revoking a prefix adds what it is meant for exactly when it is not refused, and takes nothing away. */
  lemma PrefixEffect(h: seq<Event>, keep: nat, e: Event, scope: string, issuedAt: int)
    requires keep >= 1 && e.InsertPrefix?
    ensures RevokedByPrefix(h + [e], keep, scope, issuedAt) <==>
            || RevokedByPrefix(h, keep, scope, issuedAt)
            || (!Refused(h, e.scope) && e.scope <= scope && issuedAt <= Unix(e.time) * NANOS)
    ensures RevokedExact(h + [e], scope, issuedAt) <==> RevokedExact(h, scope, issuedAt)
  {
    var h', n := h + [e], |h|;
    forall i: nat | i < n
      ensures RevokesPrefix(h', keep, i, scope, issuedAt) <==> RevokesPrefix(h, keep, i, scope, issuedAt)
    {
      EarlierKept(h, e, i);
    }
    AfterEvent(h, e);
    LastEntered(h, e, e.scope);
    assert RevokesPrefix(h', keep, n, scope, issuedAt) <==>
           !Refused(h, e.scope) && e.scope <= scope && issuedAt <= Unix(e.time) * NANOS;
    SameExact(h, e, scope, issuedAt);
  }

  lemma SameExact(h: seq<Event>, e: Event, scope: string, issuedAt: int)
    requires !e.Insert? || e.scope != scope
    ensures RevokedExact(h + [e], scope, issuedAt) <==> RevokedExact(h, scope, issuedAt)
  {
    var h' := h + [e];
    forall i: nat ensures LatestExact(h', i, scope) <==> LatestExact(h, i, scope) {
      if LatestExact(h', i, scope) {
        assert forall j :: i < j < |h| ==> h'[j] == h[j];
      }
    }
  }

  /** An exact revocation decides for its scope alone, for earlier ones of the same scope as well. */
  lemma ExactEffect(h: seq<Event>, keep: nat, e: Event, scope: string, issuedAt: int)
    requires e.Insert?
    ensures RevokedExact(h + [e], scope, issuedAt) <==>
            if scope == e.scope then issuedAt <= Unix(e.time) * NANOS else RevokedExact(h, scope, issuedAt)
    ensures RevokedByPrefix(h + [e], keep, scope, issuedAt) <==> RevokedByPrefix(h, keep, scope, issuedAt)
  {
    forall i: nat
      ensures RevokesPrefix(h + [e], keep, i, scope, issuedAt) <==> RevokesPrefix(h, keep, i, scope, issuedAt)
    {
      if i < |h| {
        EarlierKept(h, e, i);
      }
    }
    if scope == e.scope {
      assert LatestExact(h + [e], |h|, scope);
    } else {
      SameExact(h, e, scope, issuedAt);
    }
  }

  /**
   Who is revoked after a request, for those it is meant for and who were issued in time: everyone,
   unless it is for a prefix that is refused.  Then, and only then, nothing changes for them.
   */
  lemma RequestTakesEffect(h: seq<Event>, keep: nat, pattern: string, time: int, reason: string, scope: string, issuedAt: int)
    requires keep >= 1 && Meant(pattern, scope) && issuedAt <= Unix(time) * NANOS
    ensures Revoked(h + [Requested(pattern, time, reason)], keep, scope, issuedAt) <==>
            || Revoked(h, keep, scope, issuedAt)
            || Star(pattern) == |pattern|
            || !Refused(h, pattern[..Star(pattern)])
  {
    hide RevokedExact, RevokedByPrefix;
    var e := Requested(pattern, time, reason);
    if Star(pattern) == |pattern| {
      ExactEffect(h, keep, e, scope, issuedAt);
    } else {
      PrefixEffect(h, keep, e, scope, issuedAt);
    }
  }

  /** A request never touches those it is not meant for. */
  lemma RequestIsContained(h: seq<Event>, keep: nat, pattern: string, time: int, reason: string, scope: string, issuedAt: int)
    requires keep >= 1 && !Meant(pattern, scope)
    ensures Revoked(h + [Requested(pattern, time, reason)], keep, scope, issuedAt) <==> Revoked(h, keep, scope, issuedAt)
  {
    hide RevokedExact, RevokedByPrefix;
    var e := Requested(pattern, time, reason);
    if Star(pattern) == |pattern| {
      ExactEffect(h, keep, e, scope, issuedAt);
    } else {
      PrefixEffect(h, keep, e, scope, issuedAt);
    }
  }

  /** A turn of the rotator forgets exactly the bucket that is now too many. */
  lemma RotationForgets(h: seq<Event>, keep: nat, scope: string, issuedAt: int)
    requires keep >= 1
    ensures RevokedByPrefix(h + [Event.Rotate], keep, scope, issuedAt) <==> RevokedByPrefix(h, keep - 1, scope, issuedAt)
    ensures RevokedExact(h + [Event.Rotate], scope, issuedAt) <==> RevokedExact(h, scope, issuedAt)
  {
    var h', fewer: nat := h + [Event.Rotate], keep - 1;
    forall i: nat ensures RevokesPrefix(h', keep, i, scope, issuedAt) <==> RevokesPrefix(h, fewer, i, scope, issuedAt) {
      if i < |h| {
        EarlierKept(h, Event.Rotate, i);
      }
    }
    if i: nat :| RevokesPrefix(h, fewer, i, scope, issuedAt) {
      assert RevokesPrefix(h', keep, i, scope, issuedAt);
    }
    SameExact(h, Event.Rotate, scope, issuedAt);
  }

  /** "*" is meant for everyone, and changes nobody's verdict, whatever went before. */
  lemma RevokingAllRevokesNobody(h: seq<Event>, keep: nat, time: int, reason: string, scope: string, issuedAt: int)
    requires keep >= 1
    ensures Meant("*", scope)
    ensures Revoked(h + [Requested("*", time, reason)], keep, scope, issuedAt) <==> Revoked(h, keep, scope, issuedAt)
  {
    hide RevokedExact, RevokedByPrefix;
    PrefixEffect(h, keep, Requested("*", time, reason), scope, issuedAt);
  }

  /** A second request for a prefix is lost as long as the first one's bucket is the newest. */
  lemma SecondRequestIsLost(keep: nat, pattern: string, first: int, second: int, scope: string)
    requires keep >= 1 && Star(pattern) < |pattern| && Meant(pattern, scope) && Unix(first) < Unix(second)
    ensures !Revoked([Requested(pattern, first, ""), Requested(pattern, second, "")], keep, scope, Unix(second) * NANOS)
  {
    var e, f := Requested(pattern, first, ""), Requested(pattern, second, "");
    var prefix, issuedAt := pattern[..Star(pattern)], Unix(second) * NANOS;
    assert [] + [e] == [e] && [e] + [f] == [e, f];
    PrefixEffect([], keep, e, scope, issuedAt);
    PrefixEffect([e], keep, f, scope, issuedAt);
    if prefix != "" {
      assert RotationsAfter([e], 0) == 0;
      assert Entered([e], 0, 0, prefix);
    }
  }
}
