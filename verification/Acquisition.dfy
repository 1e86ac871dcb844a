/**
 Who may enter a job, over any sequence of statements at any times: no order of clocks, no
 discipline of callers is assumed.
 */
module Acquisition {
  import opened Wrappers
  import opened JobTable

  datatype Timed = Timed(statement: Statement, now: int)

  /** The table after the first `i` statements of a run from `t`. */
  ghost function TableAt(t: Table, run: seq<Timed>, i: nat): Table
    requires i <= |run|
  {
    if i == 0 then t else Execute(TableAt(t, run, i - 1), run[i - 1].statement, run[i - 1].now)
  }

  /** Statement `i` is a call of Enqueue that returns true for `key`. */
  ghost predicate Acquires(t: Table, run: seq<Timed>, i: nat, key: string) {
    && i < |run| && run[i].statement.DoEnqueue? && run[i].statement.key == key
    && Admits(TableAt(t, run, i), key, run[i].now)
  }

  /** Statement `m` removes the row of `key`. */
  ghost predicate Removes(t: Table, run: seq<Timed>, m: nat, key: string) {
    m < |run| && key in TableAt(t, run, m).rows && key !in TableAt(t, run, m + 1).rows
  }

  /** Statement `m` marks `key` done, for as long as `ttl` says. */
  ghost predicate Finishes(run: seq<Timed>, m: nat, key: string, ttl: Option<int>) {
    && m < |run| && run[m].statement.DoMarkDone? && run[m].statement.key == key
    && run[m].statement.status == Done && run[m].statement.ttl == ttl
  }

  /** No call of Enqueue marks a job done: it queues or it leases. */
  ghost predicate QueuesOrLeases(run: seq<Timed>) {
    forall i :: 0 <= i < |run| && run[i].statement.DoEnqueue? ==>
      run[i].statement.meta.status == Queued || run[i].statement.meta.status == Leased
  }

  /** A row is done because it was, with the same TTL, or because the statement marks it so. */
  lemma DoneComesFrom(t: Table, s: Statement, now: int, key: string)
    requires key in t.rows && key in Execute(t, s, now).rows
    requires s.DoEnqueue? ==> s.meta.status != Done
    ensures var r, r' := t.rows[key], Execute(t, s, now).rows[key];
            r'.status == Done ==>
              || (r.status == Done && r'.ttl == r.ttl)
              || (s.DoMarkDone? && s.key == key && s.status == Done && s.ttl == r'.ttl)
  {
  }

  lemma {:induction false} DoneIsExplained(t: Table, run: seq<Timed>, i: nat, n: nat, key: string)
    requires QueuesOrLeases(run) && Acquires(t, run, i, key) && i < n <= |run|
    requires forall m: nat :: i < m < n ==> !Removes(t, run, m, key)
    ensures key in TableAt(t, run, n).rows
    ensures var r := TableAt(t, run, n).rows[key];
            r.status == Done ==> exists m: nat :: i < m < n && Finishes(run, m, key, r.ttl)
  {
    if n > i + 1 {
      DoneIsExplained(t, run, i, n - 1, key);
      assert !Removes(t, run, n - 1, key);
      hide Execute;
      var r, r' := TableAt(t, run, n - 1).rows[key], TableAt(t, run, n).rows[key];
      DoneComesFrom(TableAt(t, run, n - 1), run[n - 1].statement, run[n - 1].now, key);
      if r'.status == Done && !(r.status == Done && r'.ttl == r.ttl) {
        assert Finishes(run, n - 1, key, r'.ttl);
      }
    }
  }

  /**
   Two calls of Enqueue that both return true for a key are separated by the removal of the
   row, or by a mark that it is done whose TTL was over at the second call.
   */
  lemma AcquisitionIsExclusive(t: Table, run: seq<Timed>, i: nat, j: nat, key: string)
    requires QueuesOrLeases(run) && Acquires(t, run, i, key) && Acquires(t, run, j, key) && i < j
    ensures || (exists m: nat :: i < m < j && Removes(t, run, m, key))
            || (exists m: nat, ttl :: i < m < j && Finishes(run, m, key, ttl) && Before(ttl, run[j].now))
  {
    if forall m: nat :: i < m < j ==> !Removes(t, run, m, key) {
      DoneIsExplained(t, run, i, j, key);
    }
  }

  /** A row goes only by Free, or by the last statement of a Reaping when its TTL is over. */
  lemma RemovedBy(t: Table, run: seq<Timed>, m: nat, key: string)
    requires Removes(t, run, m, key)
    ensures var s := run[m].statement;
            || s == DoFree(key)
            || (s.DoDeleteExpired? && TtlOver(TableAt(t, run, m).rows[key], s.reapedAt))
  {
  }

  /** Nothing in the run gives `key` a TTL or frees it. */
  ghost predicate Permanent(run: seq<Timed>, key: string) {
    forall m :: 0 <= m < |run| ==>
      match run[m].statement
      case DoEnqueue(_, meta, k, _) => k == key ==> meta.ttl == None
      case DoMarkDone(k, _, ttl, _, _) => k == key ==> ttl == None
      case DoFree(k) => k != key
      case _ => true
  }

  lemma {:induction false} StaysWithoutTtl(t: Table, run: seq<Timed>, i: nat, n: nat, key: string)
    requires Permanent(run, key) && Acquires(t, run, i, key) && i < n <= |run|
    ensures key in TableAt(t, run, n).rows && TableAt(t, run, n).rows[key].ttl == None
  {
    if n > i + 1 {
      StaysWithoutTtl(t, run, i, n - 1, key);
    }
  }

  /** With no TTL and no Free, at most one call of Enqueue ever returns true for a key. */
  lemma AcquiredAtMostOnce(t: Table, run: seq<Timed>, i: nat, j: nat, key: string)
    requires Permanent(run, key) && Acquires(t, run, i, key) && Acquires(t, run, j, key)
    ensures i == j
  {
    if i < j {
      StaysWithoutTtl(t, run, i, j, key);
    } else if j < i {
      StaysWithoutTtl(t, run, j, i, key);
    }
  }
}
