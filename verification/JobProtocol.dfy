/**
 Any number of callers, workers and reapers on one job store.  Each statement is one step;
 a Reaping is four: reading the clock, then its three statements.
 */
module JobProtocol {
  import opened Wrappers
  import opened JobTable

  /** A Reaping under way: the time it read, and how many of its statements it has run. */
  datatype Reaper = Reaper(now: int, step: nat)

  /**
   `holders` are the live executions by agent: who was let into which job and has not
   finished.  `reaped` is a history variable: how often Reaping put a row back in the queue.
   */
  datatype World = World(table: Table, clock: int, holders: map<nat, string>, reapers: map<nat, Reaper>,
                         reaped: map<string, nat>)

  datatype Op =
    | Enqueue(agent: nat, handler: string, meta: Meta, key: string, input: Bytes)
    | Dequeue(agent: nat, handlers: set<string>, lease: nat)
    | HeartBeat(key: string, lease: nat)
    | BeginReap(reaper: nat)
    | ReapNext(reaper: nat)
    | FinishDone(agent: nat, status: Status, ttl: Option<int>, output: Option<Bytes>, error: Option<Bytes>)
    | FinishRequeue(agent: nat, delay: int)
    | FinishFree(agent: nat)
    | Leave(agent: nat)
    | Advance(span: nat)

  /** Who may do what: agents are not reused while they hold, and only a holder finishes its job. */
  predicate Enabled(w: World, op: Op) {
    match op
    case Enqueue(a, _, meta, _, _) => a !in w.holders && (meta.status == Queued || meta.status == Leased)
    case Dequeue(a, _, _) => a !in w.holders
    case HeartBeat(_, _) => true
    case BeginReap(_) => true
    case ReapNext(r) => r in w.reapers && w.reapers[r].step < 3
    case FinishDone(a, status, _, _, _) => a in w.holders && (status == Done || status == Error)
    case FinishRequeue(a, _) => a in w.holders
    case FinishFree(a) => a in w.holders
    case Leave(a) => a in w.holders
    case Advance(_) => true
  }

  /** The statement that a step runs, if it runs one. */
  function StatementOf(w: World, op: Op, maxRetry: int): Option<Statement>
    requires Enabled(w, op)
  {
    match op
    case Enqueue(_, handler, meta, key, input) => Some(DoEnqueue(handler, meta, key, input))
    case Dequeue(_, handlers, lease) => Some(DoDequeue(handlers, lease))
    case HeartBeat(key, lease) => Some(DoLeaseUpdate(key, lease))
    case ReapNext(r) =>
      var reaper := w.reapers[r];
      Some(if reaper.step == 0 then DoFailExpired(reaper.now, maxRetry)
           else if reaper.step == 1 then DoRequeueExpired(reaper.now)
           else DoDeleteExpired(reaper.now))
    case FinishDone(a, status, ttl, output, error) => Some(DoMarkDone(w.holders[a], status, ttl, output, error))
    case FinishRequeue(a, delay) => Some(DoRequeue(w.holders[a], delay))
    case FinishFree(a) => Some(DoFree(w.holders[a]))
    case _ => None
  }

  ghost function TableAfter(w: World, op: Op, maxRetry: int): Table
    requires Enabled(w, op)
  {
    var s := StatementOf(w, op, maxRetry);
    if s.None? then w.table else Execute(w.table, s.value, w.clock)
  }

  ghost function HoldersAfter(w: World, op: Op): map<nat, string>
    requires Enabled(w, op)
  {
    match op
    case Enqueue(a, _, meta, key, _) =>
      if Admits(w.table, key, w.clock) && meta.status == Leased then w.holders[a := key] else w.holders
    case Dequeue(a, handlers, _) =>
      var next := Next(w.table, handlers, w.clock);
      if next.Some? then w.holders[a := next.value] else w.holders
    case FinishDone(a, _, _, _, _) => w.holders - {a}
    case FinishRequeue(a, _) => w.holders - {a}
    case FinishFree(a) => w.holders - {a}
    case Leave(a) => w.holders - {a}
    case _ => w.holders
  }

  function ReapersAfter(w: World, op: Op): map<nat, Reaper>
    requires Enabled(w, op)
  {
    match op
    case BeginReap(r) => w.reapers[r := Reaper(w.clock, 0)]
    case ReapNext(r) => w.reapers[r := w.reapers[r].(step := w.reapers[r].step + 1)]
    case _ => w.reapers
  }

  /** A row that any statement of Reaping takes from leased to queued is counted; a new row starts at zero. */
  ghost function ReapedAfter(w: World, op: Op, t: Table): map<string, nat>
    requires Enabled(w, op)
  {
    map k | k in t.rows ::
      (if k in w.reaped && k in w.table.rows then w.reaped[k] else 0) +
      (if op.ReapNext? && k in w.table.rows && w.table.rows[k].status == Leased && t.rows[k].status == Queued then 1 else 0)
  }

  ghost function Do(w: World, op: Op, maxRetry: int): World
    requires Enabled(w, op)
  {
    var t := TableAfter(w, op, maxRetry);
    World(t, if op.Advance? then w.clock + op.span else w.clock, HoldersAfter(w, op), ReapersAfter(w, op),
          ReapedAfter(w, op, t))
  }

  /** A run: each step is enabled in the world before it and leads to the one after it. */
  ghost predicate IsRun(ws: seq<World>, ops: seq<Op>, maxRetry: int) {
    && |ws| == |ops| + 1
    && forall i :: 0 <= i < |ops| ==> Enabled(ws[i], ops[i]) && ws[i + 1] == Do(ws[i], ops[i], maxRetry)
  }

  ghost predicate Initial(w: World) {
    Consistent(w.table) && w.holders == map[] && w.reapers == map[] && w.reaped == (map k | k in w.table.rows :: 0)
  }

  // ---------------------------------------------------------------- one executor at a time

  /** No live holder's lease has run out. */
  ghost predicate LeasesCurrent(w: World) {
    forall a :: a in w.holders && w.holders[a] in w.table.rows ==> !Before(w.table.rows[w.holders[a]].leasedUntil, w.clock)
  }

  /** Every live holder has its row leased, and no two have the same one. */
  ghost predicate Exclusive(w: World) {
    && (forall a :: a in w.holders ==> w.holders[a] in w.table.rows && w.table.rows[w.holders[a]].status == Leased)
    && (forall a, b :: a in w.holders && b in w.holders && a != b ==> w.holders[a] != w.holders[b])
  }

  /** A reaper's statement meets the row of a live holder whose lease is over for that reaper. */
  ghost predicate Loses(w: World, op: Op, maxRetry: int) {
    && op.ReapNext? && op.reaper in w.reapers
    && var reaper := w.reapers[op.reaper];
       exists a :: a in w.holders && w.holders[a] in w.table.rows && Meets(reaper, w.table.rows[w.holders[a]], maxRetry)
  }

  /** The next statement of `reaper` takes the row from who holds it. */
  predicate Meets(reaper: Reaper, r: Row, maxRetry: int) {
    (reaper.step == 0 && RetriesOver(r, reaper.now, maxRetry)) || (reaper.step == 1 && LeaseOver(r, reaper.now))
  }

  ghost predicate ReapersPast(w: World) {
    forall r :: r in w.reapers ==> w.reapers[r].now <= w.clock
  }

  /** Statements that finish job `k`. */
  predicate Ends(s: Statement, k: string) {
    (s.DoMarkDone? || s.DoRequeue? || s.DoFree?) && s.key == k
  }

  /** A leased row stays leased unless its job is finished or a reaper's statement meets it. */
  lemma StaysLeased(t: Table, s: Statement, now: int, k: string)
    requires k in t.rows && t.rows[k].status == Leased && !Ends(s, k)
    ensures k in Execute(t, s, now).rows
    ensures Execute(t, s, now).rows[k].status == Leased <==>
            && !(s.DoFailExpired? && RetriesOver(t.rows[k], s.reapedAt, s.maxRetry))
            && !(s.DoRequeueExpired? && LeaseOver(t.rows[k], s.reapedAt))
  {
  }

  /** Whoever is let in finds the row neither leased nor, if it was there, unfinished; and leaves it leased. */
  lemma Admitted(w: World, op: Op, maxRetry: int, a: nat)
    requires Enabled(w, op) && a in HoldersAfter(w, op) && a !in w.holders
    ensures var k := HoldersAfter(w, op)[a];
            && (k in w.table.rows ==> w.table.rows[k].status != Leased)
            && k in TableAfter(w, op, maxRetry).rows && TableAfter(w, op, maxRetry).rows[k].status == Leased
            && HoldersAfter(w, op) == w.holders[a := k]
  {
  }

  /** A holder that does not finish keeps its row leased unless a reaper's statement meets that row. */
  lemma HolderStays(w: World, op: Op, maxRetry: int, a: nat)
    requires Exclusive(w) && Enabled(w, op)
    requires a in w.holders && a in HoldersAfter(w, op)
    ensures HoldersAfter(w, op)[a] == w.holders[a]
    ensures var k := w.holders[a]; var t := TableAfter(w, op, maxRetry);
            && k in t.rows
            && (t.rows[k].status == Leased <==>
                !(op.ReapNext? && Meets(w.reapers[op.reaper], w.table.rows[k], maxRetry)))
  {
    hide Execute, Consistent;
    var k, s := w.holders[a], StatementOf(w, op, maxRetry);
    assert HoldersAfter(w, op)[a] == k;
    if s.Some? {
      assert !Ends(s.value, k);
      StaysLeased(w.table, s.value, w.clock, k);
    }
  }

  lemma HoldersDistinct(w: World, op: Op, maxRetry: int, a: nat, b: nat)
    requires Exclusive(w) && Enabled(w, op) && a != b
    requires a in HoldersAfter(w, op) && b in HoldersAfter(w, op)
    ensures HoldersAfter(w, op)[a] != HoldersAfter(w, op)[b]
  {
    hide TableAfter, HoldersAfter, Meets;
    if a in w.holders {
      HolderStays(w, op, maxRetry, a);
    } else {
      Admitted(w, op, maxRetry, a);
    }
    if b in w.holders {
      HolderStays(w, op, maxRetry, b);
    } else {
      Admitted(w, op, maxRetry, b);
    }
  }

  /** A step keeps exclusivity exactly when it takes no row from a live holder. */
  lemma StepKeepsExclusive(w: World, op: Op, maxRetry: int)
    requires Exclusive(w) && Enabled(w, op)
    ensures Exclusive(Do(w, op, maxRetry)) <==> !Loses(w, op, maxRetry)
  {
    hide TableAfter, HoldersAfter, Meets;
    var w' := Do(w, op, maxRetry);
    forall a, b | a in w'.holders && b in w'.holders && a != b ensures w'.holders[a] != w'.holders[b] {
      HoldersDistinct(w, op, maxRetry, a, b);
    }
    if Loses(w, op, maxRetry) {
      var a :| a in w.holders && w.holders[a] in w.table.rows
               && Meets(w.reapers[op.reaper], w.table.rows[w.holders[a]], maxRetry);
      ReapingKeepsHolders(w, op);
      HolderStays(w, op, maxRetry, a);
    } else {
      forall a | a in w'.holders ensures w'.holders[a] in w'.table.rows && w'.table.rows[w'.holders[a]].status == Leased {
        if a in w.holders {
          HolderStays(w, op, maxRetry, a);
        } else {
          Admitted(w, op, maxRetry, a);
        }
      }
    }
  }

  lemma ReapingKeepsHolders(w: World, op: Op)
    requires Enabled(w, op) && op.ReapNext?
    ensures HoldersAfter(w, op) == w.holders
  {
  }

  /**
   As long as no reaper's statement meets the row of a live holder, no job ever has two live
   holders, overdue as they may be.
   */
  lemma {:induction false} SingleExecutor(ws: seq<World>, ops: seq<Op>, maxRetry: int, i: nat)
    requires IsRun(ws, ops, maxRetry) && Initial(ws[0]) && i < |ws|
    requires forall j :: 0 <= j < i ==> !Loses(ws[j], ops[j], maxRetry)
    ensures Exclusive(ws[i])
  {
    if i > 0 {
      SingleExecutor(ws, ops, maxRetry, i - 1);
      StepKeepsExclusive(ws[i - 1], ops[i - 1], maxRetry);
    }
  }

  /** Reapers read a clock that only goes forward, so a lease that is not over is not over for them. */
  lemma {:induction false} CurrentLeasesSuffice(ws: seq<World>, ops: seq<Op>, maxRetry: int, i: nat)
    requires IsRun(ws, ops, maxRetry) && Initial(ws[0]) && i < |ws|
    requires forall j :: 0 <= j < i ==> LeasesCurrent(ws[j])
    ensures ReapersPast(ws[i]) && forall j :: 0 <= j < i ==> !Loses(ws[j], ops[j], maxRetry)
    ensures Exclusive(ws[i])
  {
    if i > 0 {
      CurrentLeasesSuffice(ws, ops, maxRetry, i - 1);
      hide TableAfter, HoldersAfter, ReapedAfter;
      var w, op := ws[i - 1], ops[i - 1];
      assert w == ws[i - 1] && !Loses(w, op, maxRetry);
      SingleExecutor(ws, ops, maxRetry, i);
    }
  }

  /**
   A caller that takes over a finished row inherits its lease: the caller starts with a lease
   that is over exactly when the one left in the row was.
   */
  lemma AcquiredLease(w: World, op: Op, maxRetry: int)
    requires op.Enqueue? && Enabled(w, op) && Admits(w.table, op.key, w.clock) && op.meta.status == Leased
    ensures var w' := Do(w, op, maxRetry);
            Before(w'.table.rows[w'.holders[op.agent]].leasedUntil, w'.clock) <==>
            op.key in w.table.rows && Before(w.table.rows[op.key].leasedUntil, w.clock)
  {
  }

  // ---------------------------------------------------------------- what holders do

  /** How a holder ends its job: it is no holder any more, and its row is done, queued without a lease, gone, or left as it was. */
  lemma HolderEnds(w: World, op: Op, maxRetry: int, a: nat)
    requires a in w.holders && w.holders[a] in w.table.rows && Enabled(w, op)
    requires (op.FinishDone? || op.FinishRequeue? || op.FinishFree? || op.Leave?) && op.agent == a
    ensures var k, w' := w.holders[a], Do(w, op, maxRetry);
            && w'.holders == w.holders - {a}
            && match op
               case FinishDone(_, status, ttl, _, _) =>
                 k in w'.table.rows && w'.table.rows[k].status == status && w'.table.rows[k].ttl == ttl
               case FinishRequeue(_, delay) =>
                 && k in w'.table.rows && w'.table.rows[k].status == Queued && w'.table.rows[k].leasedUntil == None
                 && w'.table.rows[k].runAt == w.clock + delay
               case FinishFree(_) => k !in w'.table.rows
               case _ => w'.table == w.table
  {
  }

  /** After a heartbeat no reaper under way takes the row away, nor one that begins before the new lease is over. */
  lemma HeartBeatProtects(w: World, key: string, lease: nat, maxRetry: int, later: Reaper)
    requires ReapersPast(w) && key in w.table.rows && later.now <= w.clock + lease
    ensures var w' := Do(w, HeartBeat(key, lease), maxRetry);
            && key in w'.table.rows && w'.table.rows[key].leasedUntil == Some(w.clock + lease)
            && w'.table.rows[key].status == w.table.rows[key].status && w'.holders == w.holders
            && (forall r :: r in w'.reapers ==> !Meets(w'.reapers[r], w'.table.rows[key], maxRetry))
            && !Meets(later, w'.table.rows[key], maxRetry)
  {
  }

  // ---------------------------------------------------------------- reaping is bounded

  function Cap(maxRetry: int): int {
    if maxRetry < 1 then 1 else maxRetry
  }

  /**
   A caller takes over a row that has used up its retries, with a lease that is over for a
   reaper that has run its first statement but not its second.
   */
  ghost predicate Disturbs(w: World, op: Op, maxRetry: int) {
    && op.Enqueue? && op.meta.status == Leased && op.key in w.table.rows && Admits(w.table, op.key, w.clock)
    && exists r :: r in w.reapers && w.reapers[r].step == 1
                   && RetriesOver(w.table.rows[op.key].(status := Leased), w.reapers[r].now, maxRetry)
  }

  ghost predicate Bounded(w: World, maxRetry: int) {
    && w.reaped.Keys == w.table.rows.Keys
    && (forall k :: k in w.reaped ==> w.reaped[k] <= OrZero(w.table.rows[k].retryCount) && w.reaped[k] <= Cap(maxRetry))
    && (forall r :: r in w.reapers ==> w.reapers[r].now <= w.clock)
    && (forall r, k :: r in w.reapers && w.reapers[r].step == 1 && k in w.table.rows ==>
          !RetriesOver(w.table.rows[k], w.reapers[r].now, maxRetry))
  }

  /** A statement leaves no row with a lease that is newly over at `reapedAt`, a time that is past. */
  lemma NoNewlyOver(t: Table, s: Statement, now: int, maxRetry: int, reapedAt: int, k: string)
    requires reapedAt <= now && k in Execute(t, s, now).rows
    requires s.DoDequeue? || s.DoLeaseUpdate? ==> s.lease >= 0
    requires s.DoMarkDone? ==> s.status == Done || s.status == Error
    ensures LeaseOver(Execute(t, s, now).rows[k], reapedAt) ==>
              && k in t.rows && Execute(t, s, now).rows[k].retryCount == t.rows[k].retryCount
              && Before(t.rows[k].leasedUntil, reapedAt)
              && (t.rows[k].status == Leased || (s.DoEnqueue? && s.key == k && s.meta.status == Leased && Admits(t, k, now)))
  {
  }

  /** The retry count of a row never goes down, and goes up by one whenever a statement of Reaping requeues it. */
  lemma RetryNeverDecreases(t: Table, s: Statement, now: int, k: string)
    requires k in t.rows && k in Execute(t, s, now).rows
    ensures OrZero(Execute(t, s, now).rows[k].retryCount) >= OrZero(t.rows[k].retryCount)
    ensures s.DoRequeueExpired? && LeaseOver(t.rows[k], s.reapedAt) ==>
              Execute(t, s, now).rows[k].retryCount == Some(OrZero(t.rows[k].retryCount) + 1)
    ensures (s.DoFailExpired? || s.DoRequeueExpired? || s.DoDeleteExpired?)
            && t.rows[k].status == Leased && Execute(t, s, now).rows[k].status == Queued ==>
              s.DoRequeueExpired? && LeaseOver(t.rows[k], s.reapedAt)
  {
  }

  /** A step keeps the bound exactly when it does not disturb a reaper. */
  lemma StepKeepsBounded(w: World, op: Op, maxRetry: int)
    requires Bounded(w, maxRetry) && Enabled(w, op)
    ensures Bounded(Do(w, op, maxRetry), maxRetry) <==> !Disturbs(w, op, maxRetry)
  {
    hide Execute, Consistent, HoldersAfter;
    var w', s := Do(w, op, maxRetry), StatementOf(w, op, maxRetry);
    if Disturbs(w, op, maxRetry) {
      DisturbedRow(w, op, maxRetry);
    } else {
      forall k | k in w'.reaped
        ensures w'.reaped[k] <= OrZero(w'.table.rows[k].retryCount) && w'.reaped[k] <= Cap(maxRetry)
      {
        ReapedIsBounded(w, op, maxRetry, k);
      }
      forall r, k | r in w'.reapers && w'.reapers[r].step == 1 && k in w'.table.rows
        ensures !RetriesOver(w'.table.rows[k], w'.reapers[r].now, maxRetry)
      {
        if op == ReapNext(r) {
          NoneLeftOver(w.table, w.reapers[r].now, maxRetry, w.clock, k);
        } else if s.Some? {
          NoNewlyOver(w.table, s.value, w.clock, maxRetry, w.reapers[r].now, k);
        }
      }
    }
  }

  lemma DisturbedRow(w: World, op: Op, maxRetry: int)
    requires Enabled(w, op) && Disturbs(w, op, maxRetry)
    ensures !Bounded(Do(w, op, maxRetry), maxRetry)
  {
    var r :| r in w.reapers && w.reapers[r].step == 1
             && RetriesOver(w.table.rows[op.key].(status := Leased), w.reapers[r].now, maxRetry);
    assert RetriesOver(Do(w, op, maxRetry).table.rows[op.key], w.reapers[r].now, maxRetry);
  }

  lemma NoneLeftOver(t: Table, now: int, maxRetry: int, clock: int, k: string)
    requires k in Execute(t, DoFailExpired(now, maxRetry), clock).rows
    ensures !RetriesOver(Execute(t, DoFailExpired(now, maxRetry), clock).rows[k], now, maxRetry)
  {
  }

  /** A row that was not there before has never been reaped; Enqueue is what inserts. */
  lemma ReapedIsBounded(w: World, op: Op, maxRetry: int, k: string)
    requires Bounded(w, maxRetry) && Enabled(w, op) && k in Do(w, op, maxRetry).reaped
    ensures var w' := Do(w, op, maxRetry);
            w'.reaped[k] <= OrZero(w'.table.rows[k].retryCount) && w'.reaped[k] <= Cap(maxRetry)
  {
    hide Execute, Consistent, HoldersAfter;
    var s := StatementOf(w, op, maxRetry);
    if s.Some? {
      if k in w.table.rows {
        RetryNeverDecreases(w.table, s.value, w.clock, k);
      } else {
        NewRowsHaveNoRetries(w.table, s.value, w.clock, k);
      }
    }
  }

  lemma NewRowsHaveNoRetries(t: Table, s: Statement, now: int, k: string)
    requires k !in t.rows && k in Execute(t, s, now).rows
    ensures Execute(t, s, now).rows[k].retryCount == None
  {
  }

  /** In a run without such a takeover Reaping puts a row back in the queue at most max(1, maxRetry) times in its life. */
  lemma {:induction false} ReapingIsBounded(ws: seq<World>, ops: seq<Op>, maxRetry: int, i: nat)
    requires IsRun(ws, ops, maxRetry) && Initial(ws[0]) && i < |ws|
    requires forall k :: k in ws[0].table.rows ==> OrZero(ws[0].table.rows[k].retryCount) >= 0
    requires forall j :: 0 <= j < i ==> !Disturbs(ws[j], ops[j], maxRetry)
    ensures Bounded(ws[i], maxRetry)
  {
    if i > 0 {
      ReapingIsBounded(ws, ops, maxRetry, i - 1);
      StepKeepsBounded(ws[i - 1], ops[i - 1], maxRetry);
    }
  }
}
