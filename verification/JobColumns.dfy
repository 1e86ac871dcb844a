/** The statements of the job store column by column, for every table and every row: what changes, and that nothing else does. */
module JobColumns {
  import opened Wrappers
  import opened JobTable

  /** Two tables have the same rows but for `key`. */
  ghost predicate SameButFor(t: Table, t': Table, key: string) {
    forall k :: k != key ==> (k in t.rows <==> k in t'.rows) && (k in t.rows ==> t'.rows[k] == t.rows[k])
  }

  /** A row for a new key; a finished row with its TTL over is taken over; any other row is left alone. */
  lemma EnqueueColumns(t: Table, handler: string, meta: Meta, key: string, input: Bytes, now: int)
    ensures var t' := Enqueue(t, handler, meta, key, input, now);
            && SameButFor(t, t', key) && key in t'.rows
            && var r' := t'.rows[key];
               if key !in t.rows then
                 && t'.nextId == t.nextId + 1 && r'.id == t.nextId && r'.key == key
                 && r'.handler == handler && r'.version == meta.version && r'.status == meta.status
                 && r'.parentId == meta.parentId && r'.rootId == meta.rootId && r'.priority == meta.priority && r'.ttl == meta.ttl
                 && r'.input == input && r'.runAt == now && r'.createdAt == now && r'.updatedAt == now
                 && r'.output == None && r'.error == None && r'.retryCount == None && r'.leasedUntil == None
               else
                 var r := t.rows[key];
                 && t'.nextId == t.nextId
                 && if r.status == Done && r.ttl.Some? && r.ttl.value < now then
                      && r'.handler == handler && r'.version == meta.version && r'.status == meta.status
                      && r'.parentId == meta.parentId && r'.rootId == meta.rootId && r'.priority == meta.priority && r'.ttl == meta.ttl
                      && r'.input == input && r'.runAt == now && r'.updatedAt == now
                      && r'.id == r.id && r'.key == r.key && r'.createdAt == r.createdAt && r'.output == r.output && r'.error == r.error
                      && r'.retryCount == r.retryCount && r'.leasedUntil == r.leasedUntil
                    else r' == r
  {
  }

  lemma LeaseColumns(t: Table, key: string, now: int, lease: int)
    requires key in t.rows
    ensures var t' := Lease(t, key, now, lease);
            && SameButFor(t, t', key) && key in t'.rows && t'.nextId == t.nextId
            && var r, r' := t.rows[key], t'.rows[key];
               && r'.status == Leased && r'.leasedUntil == Some(now + lease) && r'.updatedAt == now
               && r'.(status := r.status, leasedUntil := r.leasedUntil, updatedAt := r.updatedAt) == r
  {
  }

  lemma LeaseUpdateColumns(t: Table, key: string, now: int, lease: int)
    ensures var t' := LeaseUpdate(t, key, now, lease);
            && SameButFor(t, t', key) && (key in t'.rows <==> key in t.rows) && t'.nextId == t.nextId
            && (key in t.rows ==>
                var r, r' := t.rows[key], t'.rows[key];
                && r'.leasedUntil == Some(now + lease) && r'.updatedAt == now
                && r'.(leasedUntil := r.leasedUntil, updatedAt := r.updatedAt) == r)
  {
  }

  /** Output and error go into the row only together with a TTL. */
  lemma MarkDoneColumns(t: Table, key: string, status: Status, ttl: Option<int>, output: Option<Bytes>, error: Option<Bytes>, now: int)
    ensures var t' := MarkDone(t, key, status, ttl, output, error, now);
            && SameButFor(t, t', key) && (key in t'.rows <==> key in t.rows) && t'.nextId == t.nextId
            && (key in t.rows ==>
                var r, r' := t.rows[key], t'.rows[key];
                && r'.status == status && r'.ttl == ttl && r'.updatedAt == now
                && r'.output == (if ttl.Some? then output else r.output) && r'.error == (if ttl.Some? then error else r.error)
                && r'.(status := r.status, ttl := r.ttl, output := r.output, error := r.error, updatedAt := r.updatedAt) == r)
  {
  }

  lemma FreeColumns(t: Table, key: string)
    ensures var t' := Free(t, key); SameButFor(t, t', key) && key !in t'.rows && t'.nextId == t.nextId
  {
  }

  lemma RequeueColumns(t: Table, key: string, now: int, delay: int)
    ensures var t' := Requeue(t, key, now, delay);
            && SameButFor(t, t', key) && (key in t'.rows <==> key in t.rows) && t'.nextId == t.nextId
            && (key in t.rows ==>
                var r, r' := t.rows[key], t'.rows[key];
                && r'.status == Queued && r'.runAt == now + delay && r'.leasedUntil == None && r'.updatedAt == now
                && r'.retryCount == Some((if r.retryCount.Some? then r.retryCount.value else 0) + 1)
                && r'.(status := r.status, runAt := r.runAt, leasedUntil := r.leasedUntil, updatedAt := r.updatedAt,
                       retryCount := r.retryCount) == r)
  {
  }

  // ---------------------------------------------------------------- Reaping

  /**
   The first statement of Reaping, column by column: a leased row with its lease over and its retry
   count used up becomes an error, and nothing else changes anywhere.
   */
  lemma FailExpiredColumns(t: Table, now: int, maxRetry: int, k: string)
    ensures FailExpired(t, now, maxRetry).rows.Keys == t.rows.Keys && FailExpired(t, now, maxRetry).nextId == t.nextId
    ensures k in t.rows ==>
              var r, r' := t.rows[k], FailExpired(t, now, maxRetry).rows[k];
              if r.status == Leased && r.leasedUntil.Some? && r.leasedUntil.value < now
                 && r.retryCount.Some? && r.retryCount.value >= maxRetry
              then
                && r'.status == Error && r'.error == Some("{\"message\": \"max retries exceeded during reaping\"}") && r'.updatedAt == now
                && r'.(status := r.status, error := r.error, updatedAt := r.updatedAt) == r
              else r' == r
  {
  }

  /** The second: a leased row with its lease over is queued, without lease, and one retry is counted. */
  lemma RequeueExpiredColumns(t: Table, now: int, k: string)
    ensures RequeueExpired(t, now).rows.Keys == t.rows.Keys && RequeueExpired(t, now).nextId == t.nextId
    ensures k in t.rows ==>
              var r, r' := t.rows[k], RequeueExpired(t, now).rows[k];
              if r.status == Leased && r.leasedUntil.Some? && r.leasedUntil.value < now
              then
                && r'.status == Queued && r'.leasedUntil == None && r'.updatedAt == now
                && r'.retryCount == Some((if r.retryCount.Some? then r.retryCount.value else 0) + 1)
                && r'.(status := r.status, leasedUntil := r.leasedUntil, updatedAt := r.updatedAt, retryCount := r.retryCount) == r
              else r' == r
  {
  }

  /** The third: a finished row with its TTL over goes, and every other one stays as it is. */
  lemma DeleteExpiredColumns(t: Table, now: int, k: string)
    ensures DeleteExpired(t, now).nextId == t.nextId
    ensures k in DeleteExpired(t, now).rows <==>
              && k in t.rows
              && !((t.rows[k].status == Done || t.rows[k].status == Error) && t.rows[k].ttl.Some? && t.rows[k].ttl.value < now)
    ensures k in DeleteExpired(t, now).rows ==> DeleteExpired(t, now).rows[k] == t.rows[k]
  {
  }

  /** What one Reaping makes of a leased row with its lease over: an error that stays, or a job in the queue again. */
  lemma ReapedOnce(t: Table, now: int, maxRetry: int, k: string)
    requires k in t.rows && t.rows[k].status == Leased && t.rows[k].leasedUntil.Some? && t.rows[k].leasedUntil.value < now
    ensures var r := t.rows[k];
            var spent := r.retryCount.Some? && r.retryCount.value >= maxRetry;
            if spent && r.ttl.Some? && r.ttl.value < now then k !in Reaping(t, now, maxRetry).rows
            else
              && k in Reaping(t, now, maxRetry).rows
              && var r' := Reaping(t, now, maxRetry).rows[k];
                 if spent then r'.status == Error && r'.retryCount == r.retryCount
                 else r'.status == Queued && r'.leasedUntil == None
                      && r'.retryCount == Some((if r.retryCount.Some? then r.retryCount.value else 0) + 1)
  {
    FailExpiredColumns(t, now, maxRetry, k);
    RequeueExpiredColumns(FailExpired(t, now, maxRetry), now, k);
    DeleteExpiredColumns(RequeueExpired(FailExpired(t, now, maxRetry), now), now, k);
  }

  // ---------------------------------------------------------------- results

  /** A second result replaces outcome, status and update time, and nothing else. */
  lemma StoreResultColumns(results: map<string, ResultRow>, key: string, r: ResultRow)
    ensures var results' := StoreResult(results, key, r);
            && (forall k :: k != key ==> (k in results' <==> k in results) && (k in results ==> results'[k] == results[k]))
            && key in results'
            && if key !in results then results'[key] == r
               else
                 && results'[key].output == r.output && results'[key].error == r.error
                 && results'[key].status == r.status && results'[key].updatedAt == r.updatedAt
                 && var s := results[key];
                    results'[key].(output := s.output, error := s.error, status := s.status, updatedAt := s.updatedAt) == s
  {
  }

  /** A lookup reads the results, or the rows of jobs with a TTL; it finds what is done or failed, and anything else is pending. */
  lemma HitColumns(t: Table, results: map<string, ResultRow>, key: string)
    ensures Hit(t, results, key, false).NotFound? <==> key !in results
    ensures Hit(t, results, key, true).NotFound? <==> key !in t.rows
    ensures key in results ==>
              var r := results[key];
              Hit(t, results, key, false) ==
              if r.status == Done || r.status == Error then Finished(r.version, r.ttl, r.output, r.error) else Pending
    ensures key in t.rows ==>
              var r := t.rows[key];
              Hit(t, results, key, true) ==
              if r.status == Done || r.status == Error then Finished(r.version, r.ttl, r.output, r.error) else Pending
  {
  }
}
