/** The roots of jobs are job ids, so none of them is the "*" under which all rows are counted. */
module JobRoots {
  import opened Wrappers
  import opened JobTable
  import opened CallJob
  import opened JobCounts
  import JobId

  predicate IsJobId(s: string) {
    "job" + [JobId.SEP] <= s
  }

  predicate RootsOk(t: Table) {
    forall k :: k in t.rows ==> IsJobId(t.rows[k].rootId)
  }

  ghost predicate Rooted<I, U, E>(w: World<I, U, E>) {
    && RootsOk(w.table)
    && (forall i :: i in w.calls ==> IsJobId(w.calls[i].root))
    && (forall i :: i in w.jobs ==> IsJobId(w.jobs[i].root))
  }

  lemma RootComesFrom(t: Table, s: Statement, now: int, k: string)
    requires k in Execute(t, s, now).rows
    ensures var r := Execute(t, s, now).rows[k];
            || (k in t.rows && r.rootId == t.rows[k].rootId)
            || (s.DoEnqueue? && s.key == k && r.rootId == s.meta.rootId)
  {
  }

  lemma ExecuteKeepsRoots(t: Table, s: Statement, now: int)
    requires RootsOk(t) && (s.DoEnqueue? ==> IsJobId(s.meta.rootId))
    ensures RootsOk(Execute(t, s, now))
  {
    hide Execute, IsJobId;
    forall k | k in Execute(t, s, now).rows ensures IsJobId(Execute(t, s, now).rows[k].rootId) {
      RootComesFrom(t, s, now, k);
    }
  }

  lemma KeyIsJobId<I, U, E>(d: Site<I, U, E>, c: Call<I, U, E>)
    ensures IsJobId(Key(d, c))
  {
  }

  lemma AdvanceKeepsRoots<I, U, E>(d: Site<I, U, E>, t: Table, results: map<string, ResultRow>, c: Call<I, U, E>, now: int)
    requires RootsOk(t) && IsJobId(c.root)
    ensures RootsOk(Advance(d, t, results, c, now).table)
  {
    hide RootsOk, Unmarshal, IsJobId, Key;
    var key, input := Key(d, c), d.encIn(c.input);
    ExecuteKeepsRoots(t, DoEnqueue(c.handler, MetaOf(d, c, Queued), key, input), now);
    ExecuteKeepsRoots(t, DoEnqueue(c.handler, MetaOf(d, c, Leased), key, input), now);
    ExecuteKeepsRoots(t, DoFree(key), now);
  }

  lemma CompleteKeepsRoots<I, U, E>(d: Site<I, U, E>, t: Table, j: Job, now: int, delay: int)
    requires RootsOk(t)
    ensures RootsOk(Complete(d, t, j, now, delay).0)
  {
    hide RootsOk, IsJobId;
    ExecuteKeepsRoots(t, DoFree(j.key), now);
    ExecuteKeepsRoots(t, DoRequeue(j.key, delay), now);
    var x := d.decIn(j.input);
    if x.Some? {
      var r := d.run(j.handler, j.ranAt, x.value);
      ExecuteKeepsRoots(t, DoMarkDone(j.key, DoneStatus(ErrJson(d, r)), None, OutJson(d, r), ErrJson(d, r)), now);
    }
  }

  lemma StepKeepsRooted<I, U, E>(d: Site<I, U, E>, w: World<I, U, E>, op: Op<I>, now: int)
    requires Rooted(w) && Enabled(w, op)
    ensures Rooted(Do(d, w, op, now))
  {
    hide RootsOk, IsJobId, Key, Advance, Complete, Execute;
    match op
    case NewCall(id, handler, version, input, fromCall, requestId) =>
      KeyIsJobId(d, Call(handler, version, input, fromCall, requestId, "", Begin));
    case CallStep(id) => AdvanceKeepsRoots(d, w.table, w.results, w.calls[id], now);
    case Nest(id, inner) => KeyIsJobId(d, w.calls[inner]);
    case Take(worker, handlers, lease, ranAt) => TakeKeepsRooted(d, w, op, now);
    case FinishJob(worker, delay) => CompleteKeepsRoots(d, w.table, w.jobs[worker], now, delay);
    case Crash(_) =>
    case Other(s) => ExecuteKeepsRoots(w.table, s, now);
  }

  lemma TakeKeepsRooted<I, U, E>(d: Site<I, U, E>, w: World<I, U, E>, op: Op<I>, now: int)
    requires Rooted(w) && Enabled(w, op) && op.Take?
    ensures Rooted(Do(d, w, op, now))
  {
    hide IsJobId;
    ExecuteKeepsRoots(w.table, DoDequeue(op.handlers, op.lease), now);
  }

  lemma {:induction false} RunKeepsRooted<I, U, E>(d: Site<I, U, E>, ws: seq<World<I, U, E>>, steps: seq<Step<I>>, i: nat)
    requires IsRun(d, ws, steps) && i < |ws|
    ensures Rooted(ws[i])
  {
    hide Do, Enabled;
    if i > 0 {
      RunKeepsRooted(d, ws, steps, i - 1);
      StepKeepsRooted(d, ws[i - 1], steps[i - 1].op, steps[i - 1].now);
    }
  }

  // ---------------------------------------------------------------- the counters of a run

  /** The counters after the first `i` steps of a run, with the triggers of each statement fired in some order. */
  ghost function CountsAfter<I, U, E>(ws: seq<World<I, U, E>>, i: nat): Counts
    requires i < |ws|
  {
    if i == 0 then map[]
    else
      var rows, rows' := ws[i - 1].table.rows, ws[i].table.rows;
      Fired(CountsAfter(ws, i - 1), rows, rows', rows.Keys + rows'.Keys)
  }

  lemma {:induction false} RunKeepsAgree<I, U, E>(d: Site<I, U, E>, ws: seq<World<I, U, E>>, steps: seq<Step<I>>, i: nat)
    requires IsRun(d, ws, steps) && i < |ws|
    ensures Agree(CountsAfter(ws, i), ws[i].table.rows)
  {
    hide Do, Enabled, Agree;
    if i > 0 {
      var rows, rows' := ws[i - 1].table.rows, ws[i].table.rows;
      RunKeepsAgree(d, ws, steps, i - 1);
      FiredAgrees(CountsAfter(ws, i - 1), rows, rows', rows.Keys + rows'.Keys);
    } else {
      NoRowsNoCounts();
    }
  }

  /**
   In every run the counters that the triggers keep are exact: those under "*" are the numbers of
   rows with each status, and add up to the size of the table.
   */
  lemma CountersAreExact<I, U, E>(d: Site<I, U, E>, ws: seq<World<I, U, E>>, steps: seq<Step<I>>, i: nat)
    requires IsRun(d, ws, steps) && i < |ws|
    ensures var c, rows := CountsAfter(ws, i), ws[i].table.rows;
            && (forall root, s :: root != ALL ==> Count(c, root, s) == |WithRoot(rows, root, s)|)
            && (forall s :: Count(c, ALL, s) == |WithStatus(rows, s)|)
            && Count(c, ALL, Queued) + Count(c, ALL, Leased) + Count(c, ALL, Done) + Count(c, ALL, Error) == |rows|
  {
    RunKeepsRooted(d, ws, steps, i);
    RunKeepsAgree(d, ws, steps, i);
    hide IsRun, CountsAfter, WithRoot, WithStatus;
    var c, rows := CountsAfter(ws, i), ws[i].table.rows;
    forall k | k in rows ensures rows[k].rootId != ALL {
      assert IsJobId(rows[k].rootId);
    }
    forall s ensures Count(c, ALL, s) == |WithStatus(rows, s)| {
      TotalIsExact(c, rows, s);
    }
    TotalsAddUp(c, rows);
  }
}
