/**
 The SQL job store: tables that every method changes by statements, with the triggers firing
 row by row.  Every method takes the time it reads from the clock as `now`.
 */
module SqlStore {
  import opened Wrappers
  import opened JobTable
  import opened JobCounts

  datatype Task = Task(key: string, handler: string, version: string, parentId: string, rootId: string, input: Bytes)

  class Store {
    var rows: map<string, Row>
    var nextId: nat
    var counts: Counts
    var results: map<string, ResultRow>
    var lastDequeuedId: int
    const maxRetry: int

    /** The table that the rows form. */
    function Executions(): Table
      reads this
    {
      Table(rows, nextId)
    }

    ghost predicate Valid()
      reads this
    {
      Consistent(Executions()) && Agree(counts, rows)
    }

    constructor (maxRetry: int)
      ensures Valid() && rows == map[] && results == map[] && nextId == 1 && lastDequeuedId == -1
      ensures this.maxRetry == maxRetry
    {
      rows, nextId, counts, results, lastDequeuedId := map[], 1, map[], map[], -1;
      this.maxRetry := maxRetry;
    }

    // -------------------------------------------------------------- one row and its triggers

    method InsertRow(r: Row)
      requires Agree(counts, rows) && r.key !in rows
      modifies this`rows, this`counts
      ensures rows == old(rows)[r.key := r] && Agree(counts, rows)
    {
      InsertKeepsCounts(counts, rows, r.key, r);
      rows := rows[r.key := r];
      counts := AfterInsert(counts, r);
    }

    method UpdateRow(key: string, r: Row)
      requires Agree(counts, rows) && key in rows
      modifies this`rows, this`counts
      ensures rows == old(rows)[key := r] && Agree(counts, rows)
    {
      UpdateKeepsCounts(counts, rows, key, r);
      counts := AfterUpdate(counts, rows[key], r);
      rows := rows[key := r];
    }

    method DeleteRow(key: string)
      requires Agree(counts, rows) && key in rows
      modifies this`rows, this`counts
      ensures rows == old(rows) - {key} && Agree(counts, rows)
    {
      DeleteKeepsCounts(counts, rows, key);
      counts := AfterDelete(counts, rows[key]);
      rows := rows - {key};
    }

    /** A bulk UPDATE: the rows in `changes`, in any order. */
    method UpdateRows(changes: map<string, Row>)
      requires Agree(counts, rows) && changes.Keys <= rows.Keys
      modifies this`rows, this`counts
      ensures rows == old(rows) + changes && Agree(counts, rows)
    {
      hide Agree;
      var todo := changes.Keys;
      while todo != {}
        invariant todo <= changes.Keys && rows.Keys == old(rows).Keys && Agree(counts, rows)
        invariant forall k :: k in rows ==> rows[k] == if k in changes && k !in todo then changes[k] else old(rows)[k]
        decreases |todo|
      {
        var k :| k in todo;
        UpdateRow(k, changes[k]);
        todo := todo - {k};
      }
    }

    /** A bulk DELETE. */
    method DeleteRows(keys: set<string>)
      requires Agree(counts, rows) && keys <= rows.Keys
      modifies this`rows, this`counts
      ensures rows == old(rows) - keys && Agree(counts, rows)
    {
      hide Agree;
      var todo := keys;
      while todo != {}
        invariant todo <= keys && rows == old(rows) - (keys - todo) && Agree(counts, rows)
        decreases |todo|
      {
        var k :| k in todo;
        DeleteRow(k);
        todo := todo - {k};
      }
    }

    // -------------------------------------------------------------- the store's methods

    method Enqueue(handler: string, meta: Meta, key: string, input: Bytes, now: int) returns (acquired: bool)
      requires Valid()
      modifies this`rows, this`counts, this`nextId
      ensures Valid() && Executions() == JobTable.Enqueue(old(Executions()), handler, meta, key, input, now)
      ensures acquired <==> Admits(old(Executions()), key, now)
    {
      ExecuteKeepsConsistent(Executions(), DoEnqueue(handler, meta, key, input), now);
      if key !in rows {
        InsertRow(NewRow(nextId, handler, meta, key, input, now));
        nextId := nextId + 1;
        return true;
      }
      if rows[key].status == Done && Before(rows[key].ttl, now) {
        UpdateRow(key, TakenOver(rows[key], handler, meta, input, now));
        return true;
      }
      return false;
    }

    /** The subquery of Dequeue. */
    method SelectNext(handlers: set<string>, now: int) returns (r: Option<string>)
      requires Valid()
      ensures r.Some? ==> IsNext(Executions(), handlers, now, r.value)
      ensures r.None? ==> forall k :: k in rows ==> !Eligible(rows[k], handlers, now)
    {
      hide Agree;
      var todo := rows.Keys;
      r := None;
      while todo != {}
        invariant todo <= rows.Keys
        invariant r.None? ==> forall k :: k in rows && k !in todo ==> !Eligible(rows[k], handlers, now)
        invariant r.Some? ==> r.value in rows && r.value !in todo && Eligible(rows[r.value], handlers, now)
        invariant r.Some? ==> forall k :: k in rows && k !in todo && Eligible(rows[k], handlers, now) && k != r.value
                                ==> Precedes(rows[r.value], rows[k])
        decreases |todo|
      {
        var k :| k in todo;
        if Eligible(rows[k], handlers, now) && (r.None? || Precedes(rows[k], rows[r.value])) {
          r := Some(k);
        }
        todo := todo - {k};
      }
    }

    method Dequeue(handlers: seq<string>, now: int, lease: int) returns (r: Option<Task>, gap: int)
      requires Valid()
      modifies this`rows, this`counts, this`lastDequeuedId
      ensures Valid() && nextId == old(nextId)
      ensures var hs := set h | h in handlers;
              match r
              case None =>
                && (forall k :: k in old(rows) ==> !Eligible(old(rows)[k], hs, now))
                && rows == old(rows) && lastDequeuedId == old(lastDequeuedId)
              case Some(task) =>
                && IsNext(old(Executions()), hs, now, task.key)
                && (forall l :: l in old(rows) && l != task.key && old(rows)[l].status == Queued && old(rows)[l].runAt <= now
                                && old(rows)[l].handler in handlers ==>
                      var r, s := old(rows)[task.key], old(rows)[l];
                      && r.priority >= s.priority
                      && (r.priority == s.priority ==> r.createdAt <= s.createdAt)
                      && (r.priority == s.priority && r.createdAt == s.createdAt ==> r.id < s.id))
                && Executions() == Lease(old(Executions()), task.key, now, lease)
                && var row := old(rows)[task.key];
                   && task == Task(task.key, row.handler, row.version, row.parentId, row.rootId, row.input)
                   && lastDequeuedId == row.id
                   && gap == if old(lastDequeuedId) < 0 then 1 else row.id - old(lastDequeuedId)
    {
      gap := 0;
      if |handlers| == 0 {
        return None, gap;
      }
      var hs := set h | h in handlers;
      var next := SelectNext(hs, now);
      if next.None? {
        return None, gap;
      }
      NextColumns(Executions(), hs, now, next.value);
      var row := rows[next.value];
      UpdateRow(next.value, LeasedRow(row, now, lease));
      gap := if lastDequeuedId < 0 then 1 else row.id - lastDequeuedId;
      lastDequeuedId := row.id;
      return Some(Task(next.value, row.handler, row.version, row.parentId, row.rootId, row.input)), gap;
    }

    method FailExpired(now: int)
      requires Valid()
      modifies this`rows, this`counts
      ensures Valid() && Executions() == JobTable.FailExpired(old(Executions()), now, maxRetry)
    {
      hide Agree;
      UpdateRows(map k | k in rows && RetriesOver(rows[k], now, maxRetry) :: FailedRow(rows[k], now));
      assert rows == JobTable.FailExpired(old(Executions()), now, maxRetry).rows;
      ExecuteKeepsConsistent(old(Executions()), DoFailExpired(now, maxRetry), now);
    }

    method RequeueExpired(now: int)
      requires Valid()
      modifies this`rows, this`counts
      ensures Valid() && Executions() == JobTable.RequeueExpired(old(Executions()), now)
    {
      hide Agree;
      UpdateRows(map k | k in rows && LeaseOver(rows[k], now) :: ReapedRow(rows[k], now));
      assert rows == JobTable.RequeueExpired(old(Executions()), now).rows;
      ExecuteKeepsConsistent(old(Executions()), DoRequeueExpired(now), now);
    }

    method DeleteExpired(now: int)
      requires Valid()
      modifies this`rows, this`counts
      ensures Valid() && Executions() == JobTable.DeleteExpired(old(Executions()), now)
    {
      hide Agree;
      DeleteRows(set k | k in rows && TtlOver(rows[k], now));
      assert rows == JobTable.DeleteExpired(old(Executions()), now).rows;
      ExecuteKeepsConsistent(old(Executions()), DoDeleteExpired(now), now);
    }

    method Reaping(now: int)
      requires Valid()
      modifies this`rows, this`counts
      ensures Valid() && Executions() == JobTable.Reaping(old(Executions()), now, maxRetry)
      ensures forall k :: k in rows ==> !LeaseOver(rows[k], now) && !TtlOver(rows[k], now)
    {
      ghost var t := Executions();
      FailExpired(now);
      RequeueExpired(now);
      DeleteExpired(now);
      ReapingLeavesNoExpired(t, now, maxRetry);
    }

    method LeaseUpdate(key: string, now: int, lease: int)
      requires Valid()
      modifies this`rows, this`counts
      ensures Valid() && Executions() == JobTable.LeaseUpdate(old(Executions()), key, now, lease)
    {
      if key in rows {
        UpdateRow(key, rows[key].(leasedUntil := Some(now + lease), updatedAt := now));
      }
    }

    method DoneAsync(handler: string, meta: Meta, key: string, input: Bytes,
                     output: Option<Bytes>, error: Option<Bytes>, now: int)
      requires Valid()
      modifies this`rows, this`counts, this`results
      ensures Valid()
      ensures Executions() == MarkDone(old(Executions()), key, DoneStatus(error), meta.ttl, output, error, now)
      ensures results == if meta.ttl.Some? then old(results) else
                StoreResult(old(results), key,
                            ResultRow(handler, meta.version, DoneStatus(error), meta.parentId, meta.rootId, meta.ttl,
                                      input, output, error, now, now))
    {
      var status := if error.Some? then Error else Done;
      if key in rows {
        UpdateRow(key, DoneRow(rows[key], status, meta.ttl, output, error, now));
      }
      if meta.ttl.None? {
        results := StoreResult(results, key, ResultRow(handler, meta.version, status, meta.parentId, meta.rootId,
                                                       meta.ttl, input, output, error, now, now));
      }
    }

    /** The persistent branch of Done: the row of the job keeps its lease. */
    method DonePersistent(handler: string, meta: Meta, key: string, input: Bytes,
                          output: Option<Bytes>, error: Option<Bytes>, now: int)
      requires Valid() && meta.ttl.None?
      modifies this`results
      ensures Valid()
      ensures results == StoreResult(old(results), key,
                ResultRow(handler, meta.version, DoneStatus(error), meta.parentId, meta.rootId, None,
                          input, output, error, now, now))
    {
      var status := if error.Some? then Error else Done;
      results := StoreResult(results, key, ResultRow(handler, meta.version, status, meta.parentId, meta.rootId,
                                                     meta.ttl, input, output, error, now, now));
    }

    method Free(key: string)
      requires Valid()
      modifies this`rows, this`counts
      ensures Valid() && Executions() == JobTable.Free(old(Executions()), key)
    {
      if key in rows {
        DeleteRow(key);
      }
    }

    method Requeue(key: string, now: int, delay: int)
      requires Valid()
      modifies this`rows, this`counts
      ensures Valid() && Executions() == JobTable.Requeue(old(Executions()), key, now, delay)
    {
      if key in rows {
        var r := rows[key];
        UpdateRow(key, r.(status := Queued, runAt := now + delay, leasedUntil := None, updatedAt := now,
                          retryCount := Some(OrZero(r.retryCount) + 1)));
      }
    }

    /** The counters of a root, or of all rows. */
    method Total(root: Option<string>) returns (m: map<Status, int>)
      requires Valid()
      ensures var r := if root.Some? then root.value else ALL;
              forall s :: (if s in m then m[s] else 0) == Actual(rows, r, s)
    {
      var r := if root.Some? then root.value else ALL;
      var todo := {Queued, Leased, Done, Error};
      m := map s | s in todo && (r, s) in counts :: counts[(r, s)];
      assert forall s: Status :: s in todo || !(s.Queued? || s.Leased? || s.Done? || s.Error?);
    }
  }
}
