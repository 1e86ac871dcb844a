/** The allocator of node resources to sticky sessions. */
module Sessions {

  type Amounts = map<string, int>

  datatype Verdict = Ok | Full | Overflow

  datatype Entry = Entry(name: string, use: Amounts, expireAt: int)

  /** A missing entry of a map of amounts reads as zero. */
  function Get(m: Amounts, k: string): int {
    if k in m then m[k] else 0
  }

  // ---------------------------------------------------------------- amounts

  predicate Fits(consumed: Amounts, max: Amounts, use: Amounts, times: int) {
    forall k :: k in use ==> Get(consumed, k) + use[k] * times <= Get(max, k)
  }

  /** Whether a request fits once, and whether it would fit a second time. */
  function Judge(consumed: Amounts, max: Amounts, use: Amounts): Verdict {
    if !Fits(consumed, max, use, 1) then Overflow
    else if !Fits(consumed, max, use, 2) then Full
    else Ok
  }

  lemma JudgedFitting(consumed: Amounts, max: Amounts, use: Amounts, full: bool, tight: string)
    requires forall k :: k in use ==> Get(consumed, k) + use[k] <= Get(max, k)
    requires full ==> tight in use && Get(consumed, tight) + use[tight] * 2 > Get(max, tight)
    requires !full ==> forall k :: k in use ==> Get(consumed, k) + use[k] * 2 <= Get(max, k)
    ensures Judge(consumed, max, use) == if full then Full else Ok
  {
  }

  lemma JudgedOver(consumed: Amounts, max: Amounts, use: Amounts, k: string)
    requires k in use && Get(consumed, k) + use[k] > Get(max, k)
    ensures Judge(consumed, max, use) == Overflow
  {
    assert Get(consumed, k) + use[k] * 1 > Get(max, k);
  }

  function Add(consumed: Amounts, use: Amounts): Amounts {
    map k | k in consumed.Keys + use.Keys :: Get(consumed, k) + Get(use, k)
  }

  lemma SameAmounts(a: Amounts, b: Amounts)
    requires forall k :: (k in a <==> k in b) && Get(a, k) == Get(b, k)
    ensures a == b
  {
    forall k | k in a ensures a[k] == b[k] {
      assert Get(a, k) == Get(b, k);
    }
  }

  lemma AddAt(consumed: Amounts, use: Amounts)
    ensures forall k :: k in Add(consumed, use) <==> k in consumed || k in use
    ensures forall k :: Get(Add(consumed, use), k) == Get(consumed, k) + Get(use, k)
  {
  }

  function Clamped(n: int): int {
    if n < 0 then 0 else n
  }

  function Release(consumed: Amounts, use: Amounts): Amounts {
    map k | k in consumed.Keys + use.Keys ::
      if k in use then Clamped(Get(consumed, k) - use[k]) else Get(consumed, k)
  }

  lemma ReleaseAt(consumed: Amounts, use: Amounts)
    ensures forall k :: k in Release(consumed, use) <==> k in consumed || k in use
    ensures forall k :: Get(Release(consumed, use), k) ==
              if k in use then Clamped(Get(consumed, k) - use[k]) else Get(consumed, k)
  {
  }

  predicate NonNegative(use: Amounts) {
    forall k :: k in use ==> use[k] >= 0
  }

  /** After a request that was judged Full the same request overflows; after one judged Ok it does not. */
  lemma NextIdenticalRequest(consumed: Amounts, max: Amounts, use: Amounts)
    requires Judge(consumed, max, use) != Overflow
    ensures Judge(consumed, max, use) == Full <==> Judge(Add(consumed, use), max, use) == Overflow
  {
    if k :| k in use && Get(consumed, k) + use[k] * 2 > Get(max, k) {
      assert Get(Add(consumed, use), k) + use[k] * 1 > Get(max, k);
    } else {
      assert Fits(consumed, max, use, 2);
    }
  }

  /** Releasing undoes adding exactly when no amount that is released was negative before. */
  lemma ReleaseUndoesAdd(consumed: Amounts, use: Amounts)
    ensures (forall k :: Get(Release(Add(consumed, use), use), k) == Get(consumed, k)) <==>
            forall k :: k in use ==> Get(consumed, k) >= 0
  {
    forall k | k in use ensures Get(Release(Add(consumed, use), use), k) == Clamped(Get(consumed, k)) {}
    forall k | k !in use ensures Get(Release(Add(consumed, use), use), k) == Get(consumed, k) {}
  }

  // ---------------------------------------------------------------- sums over sessions

  ghost function Sum(store: map<string, Entry>, k: string): int {
    if store == map[] then 0
    else
      var sid :| sid in store;
      Get(store[sid].use, k) + Sum(store - {sid}, k)
  }

  lemma {:induction false} SumWithout(store: map<string, Entry>, sid: string, k: string)
    requires sid in store
    ensures Sum(store, k) == Get(store[sid].use, k) + Sum(store - {sid}, k)
    decreases |store|
  {
    var s :| s in store && Sum(store, k) == Get(store[s].use, k) + Sum(store - {s}, k);
    if s != sid {
      SumWithout(store - {s}, sid, k);
      SumWithout(store - {sid}, s, k);
      assert store - {s} - {sid} == store - {sid} - {s};
    }
  }

  lemma SumWith(store: map<string, Entry>, sid: string, e: Entry, k: string)
    requires sid !in store
    ensures Sum(store[sid := e], k) == Get(e.use, k) + Sum(store, k)
  {
    SumWithout(store[sid := e], sid, k);
    assert store[sid := e] - {sid} == store;
  }

  ghost predicate AllNonNegative(store: map<string, Entry>) {
    forall sid :: sid in store ==> NonNegative(store[sid].use)
  }

  lemma {:induction false} SumNonNegative(store: map<string, Entry>, k: string)
    requires AllNonNegative(store)
    ensures Sum(store, k) >= 0
    decreases |store|
  {
    if store != map[] {
      var sid :| sid in store;
      SumWithout(store, sid, k);
      SumNonNegative(store - {sid}, k);
    }
  }

  /** What is consumed is what the live sessions use. */
  ghost predicate Conserved(consumed: Amounts, store: map<string, Entry>) {
    forall k :: Get(consumed, k) == Sum(store, k)
  }

  /** Every amount that a session frees is there to be freed. */
  predicate Covered(consumed: Amounts, use: Amounts) {
    forall k :: k in use ==> Get(consumed, k) >= use[k]
  }

  /** A new session keeps what is consumed equal to the sum, whatever it asks for. */
  lemma AddConserves(consumed: Amounts, store: map<string, Entry>, sid: string, e: Entry)
    requires Conserved(consumed, store) && sid !in store
    ensures Conserved(Add(consumed, e.use), store[sid := e])
  {
    forall k ensures Get(Add(consumed, e.use), k) == Sum(store[sid := e], k) {
      SumWith(store, sid, e, k);
    }
  }

  /** The end of a session keeps it so exactly when the clamp at zero does not fire. */
  lemma ReleaseConserves(consumed: Amounts, store: map<string, Entry>, sid: string)
    requires Conserved(consumed, store) && sid in store
    ensures Conserved(Release(consumed, store[sid].use), store - {sid}) <==> Covered(consumed, store[sid].use)
  {
    var use := store[sid].use;
    var now := Release(consumed, use);
    ReleaseAt(consumed, use);
    forall k ensures Sum(store - {sid}, k) == Get(consumed, k) - Get(use, k) {
      SumWithout(store, sid, k);
    }
    if k :| k in use && Get(consumed, k) < use[k] {
      assert Get(now, k) != Sum(store - {sid}, k);
    } else {
      forall k ensures Get(now, k) == Sum(store - {sid}, k) {
        assert k in use ==> Get(consumed, k) >= use[k];
      }
    }
  }

  /** Conservation with non-negative sessions only, and within what there is. */
  ghost predicate Balanced(consumed: Amounts, max: Amounts, store: map<string, Entry>) {
    && AllNonNegative(store)
    && Conserved(consumed, store)
    && (forall k :: Get(consumed, k) == 0 || Get(consumed, k) <= Get(max, k))
  }

  lemma AddKeepsBalance(consumed: Amounts, max: Amounts, store: map<string, Entry>, sid: string, e: Entry)
    requires Balanced(consumed, max, store) && sid !in store && NonNegative(e.use)
    requires Judge(consumed, max, e.use) != Overflow
    ensures Balanced(Add(consumed, e.use), max, store[sid := e])
  {
    AddConserves(consumed, store, sid, e);
    var now := Add(consumed, e.use);
    forall k ensures Get(now, k) == 0 || Get(now, k) <= Get(max, k) {
      if k in e.use {
        assert Get(consumed, k) + e.use[k] * 1 <= Get(max, k);
      }
    }
  }

  /** With non-negative sessions only, the clamp never fires. */
  lemma BalancedIsCovered(consumed: Amounts, max: Amounts, store: map<string, Entry>, sid: string)
    requires Balanced(consumed, max, store) && sid in store
    ensures Covered(consumed, store[sid].use)
  {
    forall k | k in store[sid].use ensures Get(consumed, k) >= store[sid].use[k] {
      SumWithout(store, sid, k);
      SumNonNegative(store - {sid}, k);
    }
  }

  lemma ReleaseKeepsBalance(consumed: Amounts, max: Amounts, store: map<string, Entry>, sid: string)
    requires Balanced(consumed, max, store) && sid in store
    ensures Balanced(Release(consumed, store[sid].use), max, store - {sid})
    ensures Covered(consumed, store[sid].use)
  {
    var use := store[sid].use;
    BalancedIsCovered(consumed, max, store, sid);
    ReleaseConserves(consumed, store, sid);
    ReleaseAt(consumed, use);
    assert NonNegative(use);
  }

  /** The clamp fires exactly when the other sessions together use less than nothing of something. */
  lemma CoveredByOthers(consumed: Amounts, store: map<string, Entry>, sid: string)
    requires Conserved(consumed, store) && sid in store
    ensures Covered(consumed, store[sid].use) <==> forall k :: k in store[sid].use ==> Sum(store - {sid}, k) >= 0
  {
    forall k ensures Sum(store, k) == Get(store[sid].use, k) + Sum(store - {sid}, k) {
      SumWithout(store, sid, k);
    }
  }

  /** So it can: with 5 taken below nothing by one session, the end of another one that uses 3 is not conserved. */
  lemma NegativeUseBreaksBalance()
    ensures var store := map["a" := Entry("s", map["gpu" := -5], 0), "b" := Entry("s", map["gpu" := 3], 0)];
            var consumed := Add(Add(map[], map["gpu" := -5]), map["gpu" := 3]);
            && Judge(map[], map["gpu" := 1], map["gpu" := -5]) != Overflow
            && Judge(Add(map[], map["gpu" := -5]), map["gpu" := 1], map["gpu" := 3]) != Overflow
            && Conserved(consumed, store)
            && !Conserved(Release(consumed, store["b"].use), store - {"b"})
  {
    var a, b := Entry("s", map["gpu" := -5], 0), Entry("s", map["gpu" := 3], 0);
    var one := map["a" := a];
    AddConserves(map[], map[], "a", a);
    AddConserves(Add(map[], a.use), one, "b", b);
    ReleaseConserves(Add(Add(map[], a.use), b.use), one["b" := b], "b");
  }

  lemma {:induction false} RenewKeepsSum(store: map<string, Entry>, sid: string, renewed: int, k: string)
    requires sid in store
    ensures Sum(store[sid := store[sid].(expireAt := renewed)], k) == Sum(store, k)
  {
    var store' := store[sid := store[sid].(expireAt := renewed)];
    SumWithout(store, sid, k);
    SumWithout(store', sid, k);
    assert store' - {sid} == store - {sid};
  }

  lemma RenewKeepsBalance(consumed: Amounts, max: Amounts, store: map<string, Entry>, sid: string, renewed: int)
    requires sid in store
    ensures var store' := store[sid := store[sid].(expireAt := renewed)];
            && (Conserved(consumed, store') <==> Conserved(consumed, store))
            && (Balanced(consumed, max, store) ==> Balanced(consumed, max, store'))
  {
    forall k ensures Sum(store[sid := store[sid].(expireAt := renewed)], k) == Sum(store, k) {
      RenewKeepsSum(store, sid, renewed, k);
    }
  }

  /** The sessions `order` end one after the other. */
  function ReleaseAll(consumed: Amounts, store: map<string, Entry>, order: seq<string>): Amounts
    requires forall sid :: sid in order ==> sid in store
  {
    if order == [] then consumed
    else Release(ReleaseAll(consumed, store, order[..|order| - 1]), store[order[|order| - 1]].use)
  }

  // ---------------------------------------------------------------- locked handlers

  /** Every locked handler has a session of its own. */
  ghost predicate LocksHeld(locked: set<string>, store: map<string, Entry>, handlerOf: string -> string) {
    forall h :: h in locked ==> exists sid :: sid in store && handlerOf(store[sid].name) == h
  }

  lemma StartHoldsLocks(locked: set<string>, store: map<string, Entry>, handlerOf: string -> string, sid: string, e: Entry, full: bool)
    requires LocksHeld(locked, store, handlerOf) && sid !in store
    ensures LocksHeld(locked + if full then {handlerOf(e.name)} else {}, store[sid := e], handlerOf)
  {
    var store' := store[sid := e];
    assert handlerOf(store'[sid].name) == handlerOf(e.name);
    forall h | h in locked ensures exists s :: s in store' && handlerOf(store'[s].name) == h {
      var s :| s in store && handlerOf(store[s].name) == h;
      assert s in store' && handlerOf(store'[s].name) == h;
    }
  }

  lemma EndHoldsLocks(locked: set<string>, store: map<string, Entry>, handlerOf: string -> string, sid: string)
    requires LocksHeld(locked, store, handlerOf) && sid in store
    ensures LocksHeld(locked - {handlerOf(store[sid].name)}, store - {sid}, handlerOf)
  {
    forall h | h in locked - {handlerOf(store[sid].name)}
      ensures exists s :: s in store - {sid} && handlerOf((store - {sid})[s].name) == h
    {
      var s :| s in store && handlerOf(store[s].name) == h;
      assert s in store - {sid} && handlerOf((store - {sid})[s].name) == h;
    }
  }

  lemma RenewHoldsLocks(locked: set<string>, store: map<string, Entry>, handlerOf: string -> string, sid: string, renewed: int)
    requires LocksHeld(locked, store, handlerOf) && sid in store
    ensures LocksHeld(locked, store[sid := store[sid].(expireAt := renewed)], handlerOf)
  {
    var store' := store[sid := store[sid].(expireAt := renewed)];
    forall h | h in locked ensures exists s :: s in store' && handlerOf(store'[s].name) == h {
      var s :| s in store && handlerOf(store[s].name) == h;
      assert s in store' && handlerOf(store'[s].name) == h;
    }
  }

  /** A handler is locked exactly while its request does not fit. */
  predicate Accurate(locked: bool, consumed: Amounts, max: Amounts, use: Amounts) {
    locked <==> Judge(consumed, max, use) == Overflow
  }

  /** A session of the handler itself leaves its lock accurate, unless it was locked and the next one fits. */
  lemma OwnStart(locked: bool, consumed: Amounts, max: Amounts, use: Amounts)
    requires Judge(consumed, max, use) != Overflow
    ensures Accurate(locked || Judge(consumed, max, use) == Full, Add(consumed, use), max, use) <==>
            (locked ==> Judge(consumed, max, use) == Full)
  {
    NextIdenticalRequest(consumed, max, use);
  }

  /** Unlocking at the end of such a session is right exactly when no more is consumed than there is. */
  lemma OwnEnd(consumed: Amounts, max: Amounts, use: Amounts)
    requires Covered(consumed, use)
    ensures Accurate(false, Release(consumed, use), max, use) <==> forall k :: k in use ==> Get(consumed, k) <= Get(max, k)
  {
    var now := Release(consumed, use);
    ReleaseAt(consumed, use);
    forall k | k in use ensures Get(now, k) + use[k] * 1 == Get(consumed, k) {}
    hide Release;
    if k :| k in use && Get(consumed, k) > Get(max, k) {
      assert Get(now, k) + use[k] * 1 > Get(max, k);
    }
  }

  /** A session of another handler leaves a lock accurate; an unlocked handler stays so exactly while its request still fits. */
  lemma OthersStart(consumed: Amounts, max: Amounts, use: Amounts, other: Amounts)
    requires NonNegative(other)
    ensures Accurate(true, consumed, max, use) ==> Accurate(true, Add(consumed, other), max, use)
    ensures Accurate(false, Add(consumed, other), max, use) <==>
            forall k :: k in use ==> Get(consumed, k) + Get(other, k) + use[k] <= Get(max, k)
  {
    var now := Add(consumed, other);
    AddAt(consumed, other);
    hide Add;
    if k :| k in use && Get(consumed, k) + use[k] * 1 > Get(max, k) {
      assert Get(now, k) + use[k] * 1 > Get(max, k);
    }
    if k :| k in use && Get(consumed, k) + Get(other, k) + use[k] > Get(max, k) {
      assert Get(now, k) + use[k] * 1 > Get(max, k);
    }
  }

  /** The end of one leaves an unlocked handler accurate; a lock stays so exactly while the request still does not fit. */
  lemma OthersEnd(consumed: Amounts, max: Amounts, use: Amounts, other: Amounts)
    requires NonNegative(other) && Covered(consumed, other)
    ensures Accurate(false, consumed, max, use) ==> Accurate(false, Release(consumed, other), max, use)
    ensures Accurate(true, Release(consumed, other), max, use) <==>
            exists k :: k in use && Get(consumed, k) - Get(other, k) + use[k] > Get(max, k)
  {
    var now := Release(consumed, other);
    ReleaseAt(consumed, other);
    forall k ensures Get(now, k) == Get(consumed, k) - Get(other, k) {}
    hide Release;
    if Accurate(false, consumed, max, use) {
      forall k | k in use ensures Get(now, k) + use[k] * 1 <= Get(max, k) {
        assert Get(consumed, k) + use[k] * 1 <= Get(max, k);
      }
    }
    if k :| k in use && Get(consumed, k) - Get(other, k) + use[k] > Get(max, k) {
      assert Get(now, k) + use[k] * 1 > Get(max, k);
    }
  }

  /**
   Both happen: two handlers ask for one of two.  When both have a session, the first is not locked
   though its request does not fit; when the first one's session ends, the second stays locked
   though its request fits.
   */
  lemma LocksGoStale()
    ensures var one, max := map["gpu" := 1], map["gpu" := 2];
            && Judge(map[], max, one) == Ok && Judge(Add(map[], one), max, one) == Full
            && var both := Add(Add(map[], one), one);
               !Accurate(false, both, max, one) && !Accurate(true, Release(both, one), max, one)
  {
    var one, max := map["gpu" := 1], map["gpu" := 2];
    var both := Add(Add(map[], one), one);
    assert Get(both, "gpu") == 2;
    assert Get(both, "gpu") + one["gpu"] * 1 > Get(max, "gpu");
    assert Get(Add(map[], one), "gpu") + one["gpu"] * 2 > Get(max, "gpu");
    OwnEnd(both, max, one);
  }

  // ---------------------------------------------------------------- the manager

  /** An expired session that is kept alive gets a new expiry. */
  function Renewed(e: Entry, now: int, renewed: int): Entry {
    if e.expireAt < now then e.(expireAt := renewed) else e
  }

  lemma NoneReleased(consumed: Amounts, store: map<string, Entry>)
    ensures ReleaseAll(consumed, store, []) == consumed
  {
  }

  lemma OneMoreReleased(consumed: Amounts, store: map<string, Entry>, order: seq<string>, sid: string)
    requires (forall s :: s in order ==> s in store) && sid in store
    ensures ReleaseAll(consumed, store, order + [sid]) == Release(ReleaseAll(consumed, store, order), store[sid].use)
  {
    assert (order + [sid])[..|order|] == order;
  }

  /** Which sessions a run of the garbage collector ends. */
  predicate Ends(store: map<string, Entry>, now: int, keepAlive: string -> bool, sid: string) {
    sid in store && store[sid].expireAt < now && !keepAlive(sid)
  }

  /** The sessions that a run leaves, those that expired with a new expiry. */
  function Survivors(store: map<string, Entry>, now: int, keepAlive: string -> bool, renewed: int): map<string, Entry> {
    map sid | sid in store && (store[sid].expireAt < now ==> keepAlive(sid)) :: Renewed(store[sid], now, renewed)
  }

  /** What is still locked when the sessions in `order` have ended. */
  ghost function StillLocked(locked: set<string>, handlerOf: string -> string, store: map<string, Entry>, order: seq<string>)
    : set<string>
    requires forall sid :: sid in order ==> sid in store
  {
    locked - set sid | sid in order :: handlerOf(store[sid].name)
  }

  lemma NoneUnlocked(locked: set<string>, handlerOf: string -> string, store: map<string, Entry>)
    ensures StillLocked(locked, handlerOf, store, []) == locked
  {
  }

  lemma OneMoreUnlocked(locked: set<string>, handlerOf: string -> string, store: map<string, Entry>, order: seq<string>, sid: string)
    requires (forall s :: s in order ==> s in store) && sid in store
    ensures StillLocked(locked, handlerOf, store, order + [sid])
            == StillLocked(locked, handlerOf, store, order) - {handlerOf(store[sid].name)}
  {
    var gone := set s | s in order :: handlerOf(store[s].name);
    var gone' := set s | s in order + [sid] :: handlerOf(store[s].name);
    forall h ensures h in gone' <==> h in gone || h == handlerOf(store[sid].name) {
      assert sid in order + [sid];
    }
  }

  /** The collector has been at all sessions but `todo`, and `ended` are those that it ended. */
  ghost predicate Swept(was: map<string, Entry>, store: map<string, Entry>, todo: set<string>, ended: seq<string>,
                        now: int, keepAlive: string -> bool, renewed: int)
  {
    && (forall sid :: sid in ended <==> Ends(was, now, keepAlive, sid) && sid !in todo)
    && (forall i, j :: 0 <= i < j < |ended| ==> ended[i] != ended[j])
    && (forall sid :: sid in store <==> sid in was && sid !in ended)
    && (forall sid :: sid in store ==> store[sid] == if sid in todo then was[sid] else Renewed(was[sid], now, renewed))
  }

  lemma SweptFacts(was: map<string, Entry>, store: map<string, Entry>, todo: set<string>, ended: seq<string>,
                   now: int, keepAlive: string -> bool, renewed: int)
    requires Swept(was, store, todo, ended, now, keepAlive, renewed)
    ensures forall sid :: sid in ended ==> sid in was
    ensures forall sid :: sid in todo && sid in was ==> sid in store && store[sid] == was[sid]
  {
  }

  /** The collector goes on to session `sid`. */
  lemma SweptOneMore(was: map<string, Entry>, store: map<string, Entry>, todo: set<string>, ended: seq<string>,
                     now: int, keepAlive: string -> bool, renewed: int, sid: string)
    requires Swept(was, store, todo, ended, now, keepAlive, renewed) && sid in todo && sid in store
    ensures var store' := if store[sid].expireAt >= now then store
                          else if keepAlive(sid) then store[sid := store[sid].(expireAt := renewed)]
                          else store - {sid};
            var ended' := if Ends(store, now, keepAlive, sid) then ended + [sid] else ended;
            Swept(was, store', todo - {sid}, ended', now, keepAlive, renewed)
  {
    assert store[sid] == was[sid];
  }

  lemma SweptAll(was: map<string, Entry>, store: map<string, Entry>, ended: seq<string>, now: int, keepAlive: string -> bool,
                 renewed: int)
    requires Swept(was, store, {}, ended, now, keepAlive, renewed)
    ensures forall sid :: sid in ended ==> sid in was
    ensures forall i, j :: 0 <= i < j < |ended| ==> ended[i] != ended[j]
    ensures store == Survivors(was, now, keepAlive, renewed)
    ensures forall sid :: sid in ended <==> Ends(was, now, keepAlive, sid)
  {
  }

  class Manager {
    var consumed: Amounts
    var store: map<string, Entry>
    var lockedHandlers: set<string>
    const max: Amounts

    constructor (max: Amounts)
      ensures store == map[] && consumed == map[] && lockedHandlers == {} && this.max == max
      ensures Balanced(consumed, max, store)
    {
      this.max := max;
      consumed, store, lockedHandlers := map[], map[], {};
    }

    /** The keys of `use` come in any order. */
    method EntryConsume(use: Amounts) returns (verdict: Verdict)
      modifies this`consumed
      ensures verdict == Judge(old(consumed), max, use)
      ensures consumed == if verdict == Overflow then old(consumed) else Add(old(consumed), use)
    {
      if |use| == 0 {
        return Ok;
      }
      verdict := Check(use);
      if verdict != Overflow {
        Take(use);
      }
    }

    /** The first loop of `entry_consume`. */
    method Check(use: Amounts) returns (result: Verdict)
      ensures result == Judge(consumed, max, use)
    {
      hide Judge;
      var todo := use.Keys;
      ghost var tight := "";
      result := Ok;
      while todo != {}
        invariant todo <= use.Keys && result != Overflow
        invariant forall k :: k in use && k !in todo ==> Get(consumed, k) + use[k] <= Get(max, k)
        invariant result == Full ==> tight in use && Get(consumed, tight) + use[tight] * 2 > Get(max, tight)
        invariant result == Ok ==> forall k :: k in use && k !in todo ==> Get(consumed, k) + use[k] * 2 <= Get(max, k)
        decreases |todo|
      {
        var k :| k in todo;
        var current, limit := Get(consumed, k), Get(max, k);
        if current + use[k] > limit {
          JudgedOver(consumed, max, use, k);
          return Overflow;
        }
        if current + use[k] * 2 > limit {
          result, tight := Full, k;
        }
        todo := todo - {k};
      }
      JudgedFitting(consumed, max, use, result == Full, tight);
    }

    /** The second loop of `entry_consume`. */
    method Take(use: Amounts)
      modifies this`consumed
      ensures consumed == Add(old(consumed), use)
    {
      var todo := use.Keys;
      while todo != {}
        invariant todo <= use.Keys
        invariant forall k :: k in consumed <==> k in old(consumed) || (k in use && k !in todo)
        invariant forall k :: Get(consumed, k) == Get(old(consumed), k) + if k in todo then 0 else Get(use, k)
        decreases |todo|
      {
        var k :| k in todo;
        consumed := consumed[k := Get(consumed, k) + use[k]];
        todo := todo - {k};
      }
      hide Add, Get;
      AddAt(old(consumed), use);
      SameAmounts(consumed, Add(old(consumed), use));
    }

    method EntryFree(use: Amounts)
      modifies this`consumed
      ensures consumed == Release(old(consumed), use)
    {
      var todo := use.Keys;
      while todo != {}
        invariant todo <= use.Keys
        invariant forall k :: k in consumed <==> k in old(consumed) || (k in use && k !in todo)
        invariant forall k :: Get(consumed, k) ==
                    if k in use && k !in todo then Clamped(Get(old(consumed), k) - use[k]) else Get(old(consumed), k)
        decreases |todo|
      {
        var k :| k in todo;
        consumed := consumed[k := Get(consumed, k) - use[k]];
        if consumed[k] < 0 {
          consumed := consumed[k := 0];
        }
        todo := todo - {k};
      }
      hide Release, Get;
      ReleaseAt(old(consumed), use);
      SameAmounts(consumed, Release(old(consumed), use));
    }

    /** The body of the session-creating handler of group `name`; `sid` is new. */
    method CreateSession(handlerOf: string -> string, sid: string, name: string, use: Amounts, expireAt: int) returns (created: bool)
      requires sid !in store
      modifies this
      ensures created <==> Judge(old(consumed), max, use) != Overflow
      ensures !created ==> consumed == old(consumed) && store == old(store) && lockedHandlers == old(lockedHandlers)
      ensures created ==> consumed == Add(old(consumed), use) && store == old(store)[sid := Entry(name, use, expireAt)]
      ensures created ==> lockedHandlers == old(lockedHandlers) +
                            if Judge(old(consumed), max, use) == Full then {handlerOf(name)} else {}
      ensures Conserved(old(consumed), old(store)) ==> Conserved(consumed, store)
      ensures Balanced(old(consumed), max, old(store)) && NonNegative(use) ==> Balanced(consumed, max, store)
      ensures LocksHeld(old(lockedHandlers), old(store), handlerOf) ==> LocksHeld(lockedHandlers, store, handlerOf)
    {
      hide Balanced, Conserved, Judge, Add, NonNegative, LocksHeld;
      var verdict := EntryConsume(use);
      if verdict == Overflow {
        return false;
      }
      ghost var e := Entry(name, use, expireAt);
      if Conserved(old(consumed), old(store)) {
        AddConserves(old(consumed), old(store), sid, e);
      }
      if Balanced(old(consumed), max, old(store)) && NonNegative(use) {
        AddKeepsBalance(old(consumed), max, old(store), sid, e);
      }
      if LocksHeld(lockedHandlers, store, handlerOf) {
        StartHoldsLocks(lockedHandlers, store, handlerOf, sid, e, verdict == Full);
      }
      store := store[sid := Entry(name, use, expireAt)];
      if verdict == Full {
        lockedHandlers := lockedHandlers + {handlerOf(name)};
      }
      assert lockedHandlers == old(lockedHandlers) + if verdict == Full then {handlerOf(name)} else {};
      return true;
    }

    /** `keepAlive` is what the session's value answers, `renewed` the expiry it then gets. */
    method MayDeleteSession(handlerOf: string -> string, sid: string, keepAlive: bool, renewed: int) returns (deleted: bool)
      requires sid in store
      modifies this`consumed, this`store, this`lockedHandlers
      ensures deleted == !keepAlive
      ensures store == if keepAlive then old(store)[sid := old(store)[sid].(expireAt := renewed)] else old(store) - {sid}
      ensures keepAlive ==> consumed == old(consumed) && lockedHandlers == old(lockedHandlers)
      ensures !keepAlive ==> consumed == Release(old(consumed), old(store)[sid].use)
                             && lockedHandlers == old(lockedHandlers) - {handlerOf(old(store)[sid].name)}
      ensures Conserved(old(consumed), old(store)) ==>
                (Conserved(consumed, store) <==> keepAlive || Covered(old(consumed), old(store)[sid].use))
      ensures Balanced(old(consumed), max, old(store)) ==> Balanced(consumed, max, store)
      ensures LocksHeld(old(lockedHandlers), old(store), handlerOf) ==> LocksHeld(lockedHandlers, store, handlerOf)
    {
      hide Balanced, Conserved, Covered, Release, LocksHeld;
      var entry := store[sid];
      if LocksHeld(lockedHandlers, store, handlerOf) {
        EndHoldsLocks(lockedHandlers, store, handlerOf, sid);
        RenewHoldsLocks(lockedHandlers, store, handlerOf, sid, renewed);
      }
      if keepAlive {
        RenewKeepsBalance(consumed, max, store, sid, renewed);
        store := store[sid := entry.(expireAt := renewed)];
        return false;
      }
      if Conserved(consumed, store) {
        ReleaseConserves(consumed, store, sid);
      }
      if Balanced(consumed, max, store) {
        ReleaseKeepsBalance(consumed, max, store, sid);
      }
      store := store - {sid};
      EntryFree(entry.use);
      lockedHandlers := lockedHandlers - {handlerOf(entry.name)};
      return true;
    }

    /** One run of the garbage collector, over the sessions in any order; `ended` are those that end, in their order. */
    method Collect(handlerOf: string -> string, now: int, keepAlive: string -> bool, renewed: int) returns (ghost ended: seq<string>)
      modifies this`consumed, this`store, this`lockedHandlers
      ensures store == Survivors(old(store), now, keepAlive, renewed)
      ensures forall sid :: sid in ended <==> Ends(old(store), now, keepAlive, sid)
      ensures forall sid :: sid in ended ==> sid in old(store)
      ensures forall i, j :: 0 <= i < j < |ended| ==> ended[i] != ended[j]
      ensures consumed == ReleaseAll(old(consumed), old(store), ended)
      ensures lockedHandlers == StillLocked(old(lockedHandlers), handlerOf, old(store), ended)
      ensures Balanced(old(consumed), max, old(store)) ==> Balanced(consumed, max, store)
      ensures LocksHeld(old(lockedHandlers), old(store), handlerOf) ==> LocksHeld(lockedHandlers, store, handlerOf)
    {
      var todo := store.Keys;
      ended := [];
      assert Swept(store, store, todo, ended, now, keepAlive, renewed);
      hide *;
      NoneReleased(consumed, store);
      NoneUnlocked(lockedHandlers, handlerOf, store);
      while todo != {}
        invariant todo <= old(store).Keys && forall sid :: sid in ended ==> sid in old(store)
        invariant Swept(old(store), store, todo, ended, now, keepAlive, renewed)
        invariant consumed == ReleaseAll(old(consumed), old(store), ended)
        invariant lockedHandlers == StillLocked(old(lockedHandlers), handlerOf, old(store), ended)
        invariant Balanced(old(consumed), max, old(store)) ==> Balanced(consumed, max, store)
        invariant LocksHeld(old(lockedHandlers), old(store), handlerOf) ==> LocksHeld(lockedHandlers, store, handlerOf)
        decreases |todo|
      {
        var sid :| sid in todo;
        SweptFacts(old(store), store, todo, ended, now, keepAlive, renewed);
        SweptOneMore(old(store), store, todo, ended, now, keepAlive, renewed, sid);
        OneMoreReleased(old(consumed), old(store), ended, sid);
        OneMoreUnlocked(old(lockedHandlers), handlerOf, old(store), ended, sid);
        if store[sid].expireAt < now {
          var gone := MayDeleteSession(handlerOf, sid, keepAlive(sid), renewed);
          if gone {
            ended := ended + [sid];
          }
        }
        todo := todo - {sid};
      }
      SweptAll(old(store), store, ended, now, keepAlive, renewed);
    }
  }
}
