/** Dequeuing again and again at one moment: what comes out, in which order, and what stays. */
module Draining {
  import opened Wrappers
  import opened JobTable

  ghost function EligibleKeys(t: Table, handlers: set<string>, now: int): set<string> {
    set k | k in t.rows && Eligible(t.rows[k], handlers, now)
  }

  lemma LeasingRemoves(t: Table, handlers: set<string>, now: int, lease: int, k: string)
    requires IsNext(t, handlers, now, k)
    ensures EligibleKeys(Lease(t, k, now, lease), handlers, now) == EligibleKeys(t, handlers, now) - {k}
  {
  }

  /** The keys that successive Dequeues return until one finds nothing. */
  ghost function Drain(t: Table, handlers: set<string>, now: int, lease: int): seq<string>
    decreases |EligibleKeys(t, handlers, now)|
  {
    match Next(t, handlers, now)
    case None => []
    case Some(k) =>
      LeasingRemoves(t, handlers, now, lease, k);
      [k] + Drain(Lease(t, k, now, lease), handlers, now, lease)
  }

  /** The table after the first `n` of those Dequeues. */
  ghost function Drained(t: Table, ks: seq<string>, now: int, lease: int): Table
    requires forall k :: k in ks ==> k in t.rows
    decreases ks
  {
    if ks == [] then t else Drained(Lease(t, ks[0], now, lease), ks[1..], now, lease)
  }

  lemma NothingNext(t: Table, handlers: set<string>, now: int, k: string)
    requires Consistent(t) && Next(t, handlers, now) == None && k in t.rows
    ensures !Eligible(t.rows[k], handlers, now)
  {
    if Eligible(t.rows[k], handlers, now) {
      var l := NextExists(t, handlers, now, t.rows.Keys);
      assert IsNext(t, handlers, now, l);
    }
  }

  lemma {:induction false} DrainsEligible(t: Table, handlers: set<string>, now: int, lease: int, k: string)
    requires Consistent(t)
    ensures k in Drain(t, handlers, now, lease) <==> k in EligibleKeys(t, handlers, now)
    decreases |EligibleKeys(t, handlers, now)|
  {
    match Next(t, handlers, now)
    case None =>
      if k in t.rows {
        NothingNext(t, handlers, now, k);
      }
    case Some(l) =>
      LeasingRemoves(t, handlers, now, lease, l);
      ExecuteKeepsConsistent(t, DoDequeue(handlers, lease), now);
      DrainsEligible(Lease(t, l, now, lease), handlers, now, lease, k);
  }

  /** What comes out after the first was eligible as well, and comes after it. */
  lemma FirstPrecedes(t: Table, handlers: set<string>, now: int, lease: int, j: nat)
    requires Consistent(t) && 0 < j < |Drain(t, handlers, now, lease)|
    ensures var ks := Drain(t, handlers, now, lease);
            && ks[0] in t.rows && ks[j] in t.rows && ks[0] != ks[j] && Precedes(t.rows[ks[0]], t.rows[ks[j]])
            && Next(t, handlers, now) == Some(ks[0])
            && ks[1..] == Drain(Lease(t, ks[0], now, lease), handlers, now, lease)
  {
    hide Precedes, Eligible;
    var k := Next(t, handlers, now).value;
    var t', ks := Lease(t, k, now, lease), Drain(t, handlers, now, lease);
    LeasingRemoves(t, handlers, now, lease, k);
    ExecuteKeepsConsistent(t, DoDequeue(handlers, lease), now);
    assert ks[1..] == Drain(t', handlers, now, lease) && ks[1..][j - 1] == ks[j];
    DrainsEligible(t', handlers, now, lease, ks[j]);
  }

  lemma {:induction false} DrainsSorted(t: Table, handlers: set<string>, now: int, lease: int, i: nat, j: nat)
    requires Consistent(t) && i < j < |Drain(t, handlers, now, lease)|
    ensures var ks := Drain(t, handlers, now, lease);
            ks[i] in t.rows && ks[j] in t.rows && ks[i] != ks[j] && Precedes(t.rows[ks[i]], t.rows[ks[j]])
    decreases i
  {
    hide Precedes, Eligible, Drain, IsNext;
    FirstPrecedes(t, handlers, now, lease, j);
    if i > 0 {
      var ks := Drain(t, handlers, now, lease);
      FirstPrecedes(t, handlers, now, lease, i);
      var t' := Lease(t, ks[0], now, lease);
      ExecuteKeepsConsistent(t, DoDequeue(handlers, lease), now);
      DrainsSorted(t', handlers, now, lease, i - 1, j - 1);
      assert ks[1..][i - 1] == ks[i] && ks[1..][j - 1] == ks[j];
    }
  }

  lemma {:induction false} DrainedRows(t: Table, ks: seq<string>, now: int, lease: int)
    requires forall k :: k in ks ==> k in t.rows
    requires forall i, j :: 0 <= i < j < |ks| ==> ks[i] != ks[j]
    ensures Drained(t, ks, now, lease).rows ==
            map k | k in t.rows :: if k in ks then LeasedRow(t.rows[k], now, lease) else t.rows[k]
    decreases ks
  {
    if ks != [] {
      DrainedRows(Lease(t, ks[0], now, lease), ks[1..], now, lease);
    }
  }

  lemma {:induction false} NothingLeft(t: Table, handlers: set<string>, now: int, lease: int)
    requires Consistent(t)
    ensures var ks := Drain(t, handlers, now, lease);
            && (forall k :: k in ks ==> k in t.rows)
            && Next(Drained(t, ks, now, lease), handlers, now) == None
    decreases |EligibleKeys(t, handlers, now)|
  {
    forall k | k in Drain(t, handlers, now, lease) ensures k in t.rows {
      DrainsEligible(t, handlers, now, lease, k);
    }
    match Next(t, handlers, now)
    case None =>
    case Some(k) =>
      LeasingRemoves(t, handlers, now, lease, k);
      ExecuteKeepsConsistent(t, DoDequeue(handlers, lease), now);
      NothingLeft(Lease(t, k, now, lease), handlers, now, lease);
  }

  /**
   Each eligible row comes out once: higher priorities first, then older ones, then lower ids; then
   nothing; the others stay as they were.
   */
  lemma DrainsInOrder(t: Table, handlers: set<string>, now: int, lease: int)
    requires Consistent(t)
    ensures var ks := Drain(t, handlers, now, lease);
            && (forall k :: k in ks <==>
                  k in t.rows && t.rows[k].status == Queued && t.rows[k].runAt <= now && t.rows[k].handler in handlers)
            && (forall i, j :: 0 <= i < j < |ks| ==>
                  && ks[i] in t.rows && ks[j] in t.rows && ks[i] != ks[j]
                  && var r, s := t.rows[ks[i]], t.rows[ks[j]];
                     && r.priority >= s.priority
                     && (r.priority == s.priority ==> r.createdAt <= s.createdAt)
                     && (r.priority == s.priority && r.createdAt == s.createdAt ==> r.id < s.id))
            && Next(Drained(t, ks, now, lease), handlers, now) == None
            && Drained(t, ks, now, lease).rows ==
               map k | k in t.rows :: if k in ks then LeasedRow(t.rows[k], now, lease) else t.rows[k]
  {
    NothingLeft(t, handlers, now, lease);
    var ks := Drain(t, handlers, now, lease);
    forall k ensures k in ks <==> k in EligibleKeys(t, handlers, now) {
      DrainsEligible(t, handlers, now, lease, k);
    }
    forall i, j | 0 <= i < j < |ks| ensures ks[i] in t.rows && ks[j] in t.rows && ks[i] != ks[j] && Precedes(t.rows[ks[i]], t.rows[ks[j]])
    {
      DrainsSorted(t, handlers, now, lease, i, j);
    }
    DrainedRows(t, ks, now, lease);
  }
}
