/**
 The `executions` table and the statements that the SQL job store runs on it, each as a
 function from table to table.  SQL NULL is `None`; a comparison with NULL is false.
 */
module JobTable {
  import opened Wrappers

  datatype Status = Queued | Leased | Done | Error

  type Bytes = string

  datatype Meta = Meta(version: string, status: Status, parentId: string, rootId: string, ttl: Option<int>, priority: int)

  datatype Row = Row(
    id: nat, key: string, handler: string, version: string, status: Status, parentId: string, rootId: string,
    input: Bytes, output: Option<Bytes>, error: Option<Bytes>, retryCount: Option<int>, priority: int,
    ttl: Option<int>, runAt: int, createdAt: int, updatedAt: int, leasedUntil: Option<int>)

  /** The rows by key; `nextId` is the next AUTOINCREMENT id. */
  datatype Table = Table(rows: map<string, Row>, nextId: nat)

  predicate Before(t: Option<int>, now: int) {
    t.Some? && t.value < now
  }

  function OrZero(n: Option<int>): int {
    if n.Some? then n.value else 0
  }

  /** Rows sit under their own key; ids are distinct and were all handed out. */
  ghost predicate Consistent(t: Table) {
    && (forall k :: k in t.rows ==> t.rows[k].key == k && t.rows[k].id < t.nextId)
    && (forall k, l :: k in t.rows && l in t.rows && k != l ==> t.rows[k].id != t.rows[l].id)
  }

  // ---------------------------------------------------------------- Enqueue

  /** Whether Enqueue inserts a row or takes over a finished one whose TTL is over. */
  predicate Admits(t: Table, key: string, now: int) {
    key !in t.rows || (t.rows[key].status == Done && Before(t.rows[key].ttl, now))
  }

  function NewRow(id: nat, handler: string, meta: Meta, key: string, input: Bytes, now: int): Row {
    Row(id, key, handler, meta.version, meta.status, meta.parentId, meta.rootId, input, None, None, None,
        meta.priority, meta.ttl, now, now, now, None)
  }

  /** The ON CONFLICT branch: what is not listed there keeps its value, the lease and the retry count among it. */
  function TakenOver(r: Row, handler: string, meta: Meta, input: Bytes, now: int): Row {
    r.(handler := handler, version := meta.version, status := meta.status, parentId := meta.parentId,
         rootId := meta.rootId, priority := meta.priority, ttl := meta.ttl, runAt := now, input := input,
         updatedAt := now)
  }

  function Enqueue(t: Table, handler: string, meta: Meta, key: string, input: Bytes, now: int): Table {
    if key !in t.rows then Table(t.rows[key := NewRow(t.nextId, handler, meta, key, input, now)], t.nextId + 1)
    else if Admits(t, key, now) then t.(rows := t.rows[key := TakenOver(t.rows[key], handler, meta, input, now)])
    else t
  }

  // ---------------------------------------------------------------- Dequeue

  predicate Eligible(r: Row, handlers: set<string>, now: int) {
    r.status == Queued && r.runAt <= now && r.handler in handlers
  }

  /** ORDER BY priority DESC, created_at ASC, id ASC. */
  predicate Precedes(a: Row, b: Row) {
    || a.priority > b.priority
    || (a.priority == b.priority && a.createdAt < b.createdAt)
    || (a.priority == b.priority && a.createdAt == b.createdAt && a.id < b.id)
  }

  predicate IsNext(t: Table, handlers: set<string>, now: int, k: string) {
    && k in t.rows && Eligible(t.rows[k], handlers, now)
    && forall l :: l in t.rows && Eligible(t.rows[l], handlers, now) && l != k ==> Precedes(t.rows[k], t.rows[l])
  }

  function LeasedRow(r: Row, now: int, lease: int): Row {
    r.(status := Leased, leasedUntil := Some(now + lease), updatedAt := now)
  }

  function Lease(t: Table, k: string, now: int, lease: int): Table
    requires k in t.rows
  {
    t.(rows := t.rows[k := LeasedRow(t.rows[k], now, lease)])
  }

  // ---------------------------------------------------------------- statements on one key

  function LeaseUpdate(t: Table, key: string, now: int, lease: int): Table {
    if key !in t.rows then t
    else t.(rows := t.rows[key := t.rows[key].(leasedUntil := Some(now + lease), updatedAt := now)])
  }

  function DoneRow(r: Row, status: Status, ttl: Option<int>, output: Option<Bytes>, error: Option<Bytes>, now: int): Row {
    if ttl.Some? then r.(status := status, ttl := ttl, output := output, error := error, updatedAt := now)
    else r.(status := status, ttl := ttl, updatedAt := now)
  }

  function MarkDone(t: Table, key: string, status: Status, ttl: Option<int>, output: Option<Bytes>, error: Option<Bytes>,
                    now: int): Table
  {
    if key !in t.rows then t
    else t.(rows := t.rows[key := DoneRow(t.rows[key], status, ttl, output, error, now)])
  }

  function Free(t: Table, key: string): Table {
    t.(rows := t.rows - {key})
  }

  function Requeue(t: Table, key: string, now: int, delay: int): Table {
    if key !in t.rows then t
    else
      var r := t.rows[key];
      t.(rows := t.rows[key := r.(status := Queued, runAt := now + delay, leasedUntil := None, updatedAt := now,
                                  retryCount := Some(OrZero(r.retryCount) + 1))])
  }

  // ---------------------------------------------------------------- the three statements of Reaping

  const MAX_RETRIES_MESSAGE: Bytes := "{\"message\": \"max retries exceeded during reaping\"}"

  predicate LeaseOver(r: Row, now: int) {
    r.status == Leased && Before(r.leasedUntil, now)
  }

  predicate RetriesOver(r: Row, now: int, maxRetry: int) {
    LeaseOver(r, now) && r.retryCount.Some? && r.retryCount.value >= maxRetry
  }

  predicate TtlOver(r: Row, now: int) {
    (r.status == Done || r.status == Error) && Before(r.ttl, now)
  }

  function FailedRow(r: Row, now: int): Row {
    r.(status := Error, error := Some(MAX_RETRIES_MESSAGE), updatedAt := now)
  }

  function ReapedRow(r: Row, now: int): Row {
    r.(status := Queued, leasedUntil := None, updatedAt := now, retryCount := Some(OrZero(r.retryCount) + 1))
  }

  function FailExpired(t: Table, now: int, maxRetry: int): Table {
    t.(rows := map k | k in t.rows :: if RetriesOver(t.rows[k], now, maxRetry) then FailedRow(t.rows[k], now) else t.rows[k])
  }

  function RequeueExpired(t: Table, now: int): Table {
    t.(rows := map k | k in t.rows :: if LeaseOver(t.rows[k], now) then ReapedRow(t.rows[k], now) else t.rows[k])
  }

  function DeleteExpired(t: Table, now: int): Table {
    t.(rows := map k | k in t.rows && !TtlOver(t.rows[k], now) :: t.rows[k])
  }

  function Reaping(t: Table, now: int, maxRetry: int): Table {
    DeleteExpired(RequeueExpired(FailExpired(t, now, maxRetry), now), now)
  }

  /** After a full Reaping no lease is over, and no finished row with a TTL before its time is left. */
  lemma ReapingLeavesNoExpired(t: Table, now: int, maxRetry: int)
    ensures forall k :: k in Reaping(t, now, maxRetry).rows ==>
              var r := Reaping(t, now, maxRetry).rows[k];
              !LeaseOver(r, now) && !TtlOver(r, now)
  {
  }

  // ---------------------------------------------------------------- executions_results

  datatype ResultRow = ResultRow(
    handler: string, version: string, status: Status, parentId: string, rootId: string, ttl: Option<int>,
    input: Bytes, output: Option<Bytes>, error: Option<Bytes>, createdAt: int, updatedAt: int)

  function DoneStatus(error: Option<Bytes>): Status {
    if error.Some? then Error else Done
  }

  /** The upsert of a result: a second one replaces output, error, status and update time only. */
  function StoreResult(results: map<string, ResultRow>, key: string, r: ResultRow): map<string, ResultRow> {
    if key in results then
      results[key := results[key].(output := r.output, error := r.error, status := r.status, updatedAt := r.updatedAt)]
    else results[key := r]
  }

  /** Results stored under one key, one after the other. */
  function StoreAll(results: map<string, ResultRow>, key: string, rs: seq<ResultRow>): map<string, ResultRow> {
    if rs == [] then results
    else StoreResult(StoreAll(results, key, rs[..|rs| - 1]), key, rs[|rs| - 1])
  }

  /** The first of some results, with the outcome of the last one. */
  function Merged(rs: seq<ResultRow>): ResultRow
    requires rs != []
  {
    var last := rs[|rs| - 1];
    rs[0].(output := last.output, error := last.error, status := last.status, updatedAt := last.updatedAt)
  }

  /** However many results are stored under a key, it keeps the version of the first and the outcome of the last. */
  lemma {:induction false} FirstVersionLastOutcome(results: map<string, ResultRow>, key: string, rs: seq<ResultRow>)
    requires key !in results && rs != []
    ensures StoreAll(results, key, rs) == results[key := Merged(rs)]
  {
    if |rs| > 1 {
      FirstVersionLastOutcome(results, key, rs[..|rs| - 1]);
    } else {
      assert StoreAll(results, key, rs[..0]) == results;
    }
  }

  datatype Lookup =
    | NotFound
    | Pending
    | Finished(version: string, ttl: Option<int>, output: Option<Bytes>, error: Option<Bytes>)

  /** What Hit reads, from the table of results or, for volatile jobs, from the rows. */
  function Hit(t: Table, results: map<string, ResultRow>, key: string, volatile: bool): Lookup {
    if volatile then
      if key !in t.rows then NotFound
      else
        var r := t.rows[key];
        if r.status != Done && r.status != Error then Pending else Finished(r.version, r.ttl, r.output, r.error)
    else if key !in results then NotFound
    else
      var r := results[key];
      if r.status != Done && r.status != Error then Pending else Finished(r.version, r.ttl, r.output, r.error)
  }

  // ---------------------------------------------------------------- any statement

  datatype Statement =
    | DoEnqueue(handler: string, meta: Meta, key: string, input: Bytes)
    | DoDequeue(handlers: set<string>, lease: int)
    | DoLeaseUpdate(key: string, lease: int)
    | DoFailExpired(reapedAt: int, maxRetry: int)
    | DoRequeueExpired(reapedAt: int)
    | DoDeleteExpired(reapedAt: int)
    | DoMarkDone(key: string, status: Status, ttl: Option<int>, output: Option<Bytes>, error: Option<Bytes>)
    | DoRequeue(key: string, delay: int)
    | DoFree(key: string)

  /** The row that a Dequeue takes, if there is one. */
  ghost function Next(t: Table, handlers: set<string>, now: int): (r: Option<string>)
    ensures r.Some? ==> IsNext(t, handlers, now, r.value)
    ensures r.None? ==> forall k :: !IsNext(t, handlers, now, k)
  {
    if exists k :: IsNext(t, handlers, now, k) then
      var k :| IsNext(t, handlers, now, k);
      Some(k)
    else None
  }

  ghost function Execute(t: Table, s: Statement, now: int): Table {
    match s
    case DoEnqueue(handler, meta, key, input) => Enqueue(t, handler, meta, key, input, now)
    case DoDequeue(handlers, lease) =>
      (match Next(t, handlers, now)
       case None => t
       case Some(k) => Lease(t, k, now, lease))
    case DoLeaseUpdate(key, lease) => LeaseUpdate(t, key, now, lease)
    case DoFailExpired(reapedAt, maxRetry) => FailExpired(t, reapedAt, maxRetry)
    case DoRequeueExpired(reapedAt) => RequeueExpired(t, reapedAt)
    case DoDeleteExpired(reapedAt) => DeleteExpired(t, reapedAt)
    case DoMarkDone(key, status, ttl, output, error) => MarkDone(t, key, status, ttl, output, error, now)
    case DoRequeue(key, delay) => Requeue(t, key, now, delay)
    case DoFree(key) => Free(t, key)
  }

  /** A statement keeps the ids of rows; only Enqueue adds one, under the next id. */
  lemma IdAfter(t: Table, s: Statement, now: int, k: string)
    requires Consistent(t) && k in Execute(t, s, now).rows
    ensures var t' := Execute(t, s, now);
            && t'.rows[k].key == k && t'.nextId >= t.nextId
            && if k in t.rows then t'.rows[k].id == t.rows[k].id
               else s.DoEnqueue? && s.key == k && t'.rows[k].id == t.nextId && t'.nextId == t.nextId + 1
  {
  }

  lemma ExecuteKeepsConsistent(t: Table, s: Statement, now: int)
    requires Consistent(t)
    ensures Consistent(Execute(t, s, now))
  {
    hide Execute;
    forall k | k in Execute(t, s, now).rows
      ensures Execute(t, s, now).rows[k].key == k && Execute(t, s, now).rows[k].id < Execute(t, s, now).nextId
      ensures forall l :: l in Execute(t, s, now).rows && k != l ==> Execute(t, s, now).rows[k].id != Execute(t, s, now).rows[l].id
    {
      IdAfter(t, s, now, k);
      forall l | l in Execute(t, s, now).rows && k != l
        ensures Execute(t, s, now).rows[k].id != Execute(t, s, now).rows[l].id
      {
        IdAfter(t, s, now, l);
      }
    }
  }

  /** Column by column: the row that is next is eligible, and every other eligible one has a lower priority, is younger or has a higher id. */
  lemma NextColumns(t: Table, handlers: set<string>, now: int, k: string)
    ensures IsNext(t, handlers, now, k) <==>
            && k in t.rows && t.rows[k].status == Queued && t.rows[k].runAt <= now && t.rows[k].handler in handlers
            && forall l :: l in t.rows && l != k && t.rows[l].status == Queued && t.rows[l].runAt <= now && t.rows[l].handler in handlers ==>
                 var r, s := t.rows[k], t.rows[l];
                 && r.priority >= s.priority
                 && (r.priority == s.priority ==> r.createdAt <= s.createdAt)
                 && (r.priority == s.priority && r.createdAt == s.createdAt ==> r.id < s.id)
  {
  }

  /** Ids are distinct, so the order has no ties: at most one row is next. */
  lemma NextIsUnique(t: Table, handlers: set<string>, now: int, k: string, l: string)
    requires Consistent(t) && IsNext(t, handlers, now, k) && IsNext(t, handlers, now, l)
    ensures k == l
  {
  }

  /** Some row is next as soon as one is eligible. */
  lemma {:induction false} NextExists(t: Table, handlers: set<string>, now: int, ks: set<string>) returns (k: string)
    requires Consistent(t) && ks <= t.rows.Keys
    requires exists l :: l in ks && Eligible(t.rows[l], handlers, now)
    ensures k in ks && Eligible(t.rows[k], handlers, now)
    ensures forall l :: l in ks && Eligible(t.rows[l], handlers, now) && l != k ==> Precedes(t.rows[k], t.rows[l])
    decreases |ks|
  {
    k :| k in ks && Eligible(t.rows[k], handlers, now);
    if l0 :| l0 in ks && Eligible(t.rows[l0], handlers, now) && l0 != k {
      var l := NextExists(t, handlers, now, ks - {k});
      if Precedes(t.rows[l], t.rows[k]) {
        k := l;
      }
    }
  }
}
