/**
 What a call of a handler does in each job mode, step by step and over whole runs, said in terms
 of the modes and of the rows and results that are left behind.
 */
module CallModes {
  import opened Wrappers
  import opened JobTable
  import opened CallJob
  import opened CacheTransparency
  import opened CallAdmission
  import opened CacheVersions
  import opened JobColumns
  import opened Versions
  import JobId

  predicate Caching(m: Mode) {
    m.Cache? || m.Once? || m.Memoized? || m.Dispatch?
  }

  /** Queued rather than run: called from another handler in async or dispatch mode. */
  predicate Queuing(m: Mode, fromCall: bool) {
    (m.Async? || m.Dispatch?) && fromCall
  }

  predicate Locking(m: Mode) {
    m.Dedupe? || m.Once? || m.Memoized?
  }

  // ---------------------------------------------------------------- one step

  /** Only modes with a cache look for a result; none of them leaves a trace of the lookup. */
  lemma LooksUp<I(!new), U, E>(d: Site<I, U, E>, w: World<I, U, E>, id: nat, now: int)
    requires id in w.calls && w.calls[id].pc.Begin?
    ensures var c, w' := w.calls[id], Do(d, w, CallStep(id), now);
            && w'.table == w.table && w'.results == w.results && w'.stores == w.stores
            && (!Caching(d.mode(c.handler)) ==> w'.calls[id].pc == Looked)
  {
    hide Unmarshal;
  }

  /** A call that is queued: a queued row of its own if there was none, and the caller is told that it is pending. */
  lemma Queues<I(!new), U, E>(d: Site<I, U, E>, w: World<I, U, E>, id: nat, now: int)
    requires id in w.calls && w.calls[id].pc.Looked? && Queuing(d.mode(w.calls[id].handler), w.calls[id].fromCall)
    ensures var c, w' := w.calls[id], Do(d, w, CallStep(id), now); var key := Key(d, c);
            && w'.calls[id].pc == Returned(Fails(JobPending(key))) && w'.results == w.results
            && SameButFor(w.table, w'.table, key) && key in w'.table.rows
            && (key !in w.table.rows ==> FreshRow(d, c, w'.table.rows[key], Queued, now))
            && (key in w.table.rows && !(w.table.rows[key].status == Done && w.table.rows[key].ttl.Some? && w.table.rows[key].ttl.value < now)
                ==> w'.table == w.table)
  {
    hide Key;
    var c := w.calls[id];
    EnqueueColumns(w.table, c.handler, MetaOf(d, c, Queued), Key(d, c), d.encIn(c.input), now);
    hide Enqueue, SameButFor;
  }

  /** A row that stands for call `c`. */
  predicate FreshRow<I, U, E>(d: Site<I, U, E>, c: Call<I, U, E>, r: Row, status: Status, now: int) {
    && r.key == Key(d, c) && r.handler == c.handler && r.version == c.version && r.input == d.encIn(c.input) && r.status == status
    && r.parentId == Key(d, c) && r.rootId == c.root && r.ttl == None && r.runAt == now && r.leasedUntil == None
    && r.priority == d.priority(c.handler)
  }

  /** A call that locks leaves a leased row of its own if there was none; then it is in. */
  lemma Locks<I(!new), U, E>(d: Site<I, U, E>, w: World<I, U, E>, id: nat, now: int)
    requires id in w.calls && w.calls[id].pc.Looked? && Locking(d.mode(w.calls[id].handler))
    ensures var c, w' := w.calls[id], Do(d, w, CallStep(id), now); var key := Key(d, c);
            && w'.results == w.results && SameButFor(w.table, w'.table, key) && key in w'.table.rows
            && (key !in w.table.rows ==> FreshRow(d, c, w'.table.rows[key], Leased, now) && w'.calls[id].pc == Entered)
            && (w'.calls[id].pc == Entered ==> w'.table.rows[key].status == Leased && w'.table.rows[key].handler == c.handler)
            && (w'.calls[id].pc != Entered ==> w'.table == w.table)
  {
    hide Key;
    var c := w.calls[id];
    EnqueueColumns(w.table, c.handler, MetaOf(d, c, Leased), Key(d, c), d.encIn(c.input), now);
    hide Enqueue, SameButFor;
  }

  /** All other calls run their handler at once and leave the store alone. */
  lemma RunsAtOnce<I(!new), U, E>(d: Site<I, U, E>, w: World<I, U, E>, id: nat, now: int)
    requires id in w.calls && w.calls[id].pc.Looked?
    requires var c := w.calls[id]; !Locking(d.mode(c.handler)) && !Queuing(d.mode(c.handler), c.fromCall)
    ensures var w' := Do(d, w, CallStep(id), now);
            w'.calls[id].pc == Entered && w'.table == w.table && w'.results == w.results
  {
  }

  /** What is left of a run: a result if there is a cache and no abort, a free row in plain dedupe, and nothing otherwise. */
  lemma Finishes<I(!new), U, E>(d: Site<I, U, E>, w: World<I, U, E>, id: nat, now: int)
    requires id in w.calls && w.calls[id].pc.Ran?
    ensures var c, w' := w.calls[id], Do(d, w, CallStep(id), now); var r, key := c.pc.run, Key(d, c);
            && w'.calls[id].pc == Closing(r)
            && (if Caching(d.mode(c.handler)) && r.abort.NoAbort? then
                  && w'.results.Keys == w.results.Keys + {key}
                  && (forall k :: k in w.results && k != key ==> w'.results[k] == w.results[k])
                  && HoldsOutcome(d, w'.results[key], r)
                  && (key !in w.results ==>
                      var s := w'.results[key];
                      s.handler == c.handler && s.version == c.version && s.input == d.encIn(c.input) && s.ttl == None && s.rootId == c.root)
                else w'.results == w.results)
            && SameButFor(w.table, w'.table, key)
            && (if d.mode(c.handler).Dedupe? then key !in w'.table.rows else w'.table == w.table)
  {
    hide Key;
    var c := w.calls[id];
    StoreResultColumns(w.results, Key(d, c), NewResult(d, c.handler, c.version, c.root, d.encIn(c.input), Key(d, c), c.pc.run, now));
    FreeColumns(w.table, Key(d, c));
  }

  /** A result row tells what a run returned. */
  predicate HoldsOutcome<I, U, E>(d: Site<I, U, E>, s: ResultRow, r: Run<U, E>) {
    match r.err
    case None => s.status == Done && s.output == Some(d.encOut(r.output)) && s.error == None
    case Some(e) => s.status == Error && s.output == None && s.error == Some(d.encErr(e))
  }

  /** A handler that asked for it is enqueued again, to be queued where a call of it would be and leased otherwise. */
  lemma Reenqueues<I(!new), U, E>(d: Site<I, U, E>, w: World<I, U, E>, id: nat, now: int)
    requires id in w.calls && w.calls[id].pc.Closing?
    ensures var c, w' := w.calls[id], Do(d, w, CallStep(id), now); var key := Key(d, c);
            && w'.results == w.results && SameButFor(w.table, w'.table, key) && w'.calls[id].pc.Returned?
            && (!c.pc.run.abort.Requeued? ==> w'.table == w.table)
            && (c.pc.run.abort.Requeued? ==>
                && key in w'.table.rows
                && (key !in w.table.rows ==>
                    FreshRow(d, c, w'.table.rows[key], if Queuing(d.mode(c.handler), c.fromCall) then Queued else Leased, now)))
  {
    hide Key;
    var c := w.calls[id];
    EnqueueColumns(w.table, c.handler, MetaOf(d, c, Queued), Key(d, c), d.encIn(c.input), now);
    EnqueueColumns(w.table, c.handler, MetaOf(d, c, Leased), Key(d, c), d.encIn(c.input), now);
    hide Enqueue, SameButFor;
  }

  /** A worker takes the next row: it is leased to it, and its columns are the worker's job. */
  lemma Takes<I(!new), U, E>(d: Site<I, U, E>, w: World<I, U, E>, worker: nat, handlers: set<string>, lease: int, ranAt: string, now: int, k: string)
    requires Consistent(w.table) && worker !in w.jobs && IsNext(w.table, handlers, now, k)
    ensures var w', r := Do(d, w, Take(worker, handlers, lease, ranAt), now), w.table.rows[k];
            && w'.jobs == w.jobs[worker := Job(k, r.handler, r.version, r.rootId, r.input, ranAt)]
            && SameButFor(w.table, w'.table, k) && k in w'.table.rows
            && w'.table.rows[k].status == Leased && w'.table.rows[k].leasedUntil == Some(now + lease)
  {
    var l := Next(w.table, handlers, now).value;
    NextIsUnique(w.table, handlers, now, k, l);
    LeaseColumns(w.table, k, now, lease);
  }

  /** What a worker leaves of a job: its row done and its result stored, the row queued again, or nothing. */
  lemma WorkerLeaves<I(!new), U, E>(d: Site<I, U, E>, w: World<I, U, E>, worker: nat, delay: int, now: int)
    requires Enabled(w, FinishJob(worker, delay))
    ensures var j, w' := w.jobs[worker], Do(d, w, FinishJob(worker, delay), now);
            && w'.jobs == w.jobs - {worker} && SameButFor(w.table, w'.table, j.key)
            && (d.decIn(j.input) == None ==> j.key !in w'.table.rows && w'.results == w.results)
            && (d.decIn(j.input).Some? ==>
                var r := d.run(j.handler, j.ranAt, d.decIn(j.input).value);
                if !r.abort.NoAbort? then
                  w'.results == w.results
                  && (j.key in w.table.rows ==>
                      && j.key in w'.table.rows && w'.table.rows[j.key].status == Queued && w'.table.rows[j.key].runAt == now + delay
                      && w'.table.rows[j.key].leasedUntil == None)
                else if Caching(d.mode(j.handler)) then
                  && j.key in w'.results && HoldsOutcome(d, w'.results[j.key], r)
                  && (j.key !in w.results ==>
                      w'.results[j.key].version == j.version && w'.results[j.key].handler == j.handler
                      && w'.results[j.key].input == j.input && w'.results[j.key].rootId == j.root)
                  && (j.key in w.table.rows ==>
                      j.key in w'.table.rows && w'.table.rows[j.key].status == if r.err.None? then Done else Error)
                else w'.results == w.results && j.key !in w'.table.rows)
  {
    var j := w.jobs[worker];
    FreeColumns(w.table, j.key);
    RequeueColumns(w.table, j.key, now, delay);
    if d.decIn(j.input).Some? {
      var r := d.run(j.handler, j.ranAt, d.decIn(j.input).value);
      MarkDoneColumns(w.table, j.key, DoneStatus(ErrJson(d, r)), None, OutJson(d, r), ErrJson(d, r), now);
      StoreResultColumns(w.results, j.key, NewResult(d, j.handler, j.version, j.root, j.input, j.key, r, now));
    }
    hide Free, Requeue, MarkDone, StoreResult, VersionDiff, SameButFor;
  }

  /** A call made by a handler makes its own id the root of its caller's later rows, and changes nothing else. */
  lemma Nests<I(!new), U, E>(d: Site<I, U, E>, w: World<I, U, E>, id: nat, inner: nat, now: int)
    requires Enabled(w, Nest(id, inner))
    ensures var w' := Do(d, w, Nest(id, inner), now);
            w' == w.(calls := w.calls[id := w.calls[id].(root := Key(d, w.calls[inner]))])
  {
  }

  /** A worker that is lost leaves rows and results as they are, its row leased. */
  lemma Crashes<I(!new), U, E>(d: Site<I, U, E>, w: World<I, U, E>, worker: nat, now: int)
    requires Enabled(w, Crash(worker))
    ensures var w' := Do(d, w, Crash(worker), now);
            worker !in w'.jobs && w'.table == w.table && w'.results == w.results && w'.calls == w.calls
  {
  }

  /** A call that waits goes on waiting exactly as long as no finished result is there. */
  lemma Waits<I(!new), U, E>(d: Site<I, U, E>, w: World<I, U, E>, id: nat, now: int)
    requires id in w.calls && w.calls[id].pc.Waiting?
    ensures var key := Key(d, w.calls[id]);
            Do(d, w, CallStep(id), now).calls[id].pc == Waiting <==>
            key !in w.results || (w.results[key].status != Done && w.results[key].status != Error)
  {
    HitColumns(w.table, w.results, Key(d, w.calls[id]));
    hide Unmarshal, Key;
  }

  /** What is over its TTL is no answer, nor is what has another major or minor version. */
  lemma NoStaleAnswer<I(!new), U, E>(d: Site<I, U, E>, handler: string, at: string, version: string, ttl: Option<int>,
                                     output: Option<Bytes>, error: Option<Bytes>, now: int)
    ensures (ttl.Some? && ttl.value < now) || VersionDiff(version, at) ==>
              Unmarshal(d, handler, at, Finished(version, ttl, output, error), now) == None
  {
  }

  // ---------------------------------------------------------------- whole runs

  /** A call that is to be queued never runs its handler in the caller's process. */
  lemma {:induction false} QueuedNeverRunsHere<I(!new), U, E>(d: Site<I, U, E>, ws: seq<World<I, U, E>>, steps: seq<Step<I>>, i: nat, id: nat)
    requires IsRun(d, ws, steps) && i < |ws| && id in ws[i].calls
    requires Queuing(d.mode(ws[i].calls[id].handler), ws[i].calls[id].fromCall)
    ensures !Inside(ws[i].calls[id].pc)
  {
    if Inside(ws[i].calls[id].pc) {
      var n := WasLetIn(d, ws, steps, i, id);
      SameCall(d, ws, steps, n, i, id);
      hide Enqueue;
    }
  }

  lemma {:induction false} SameCall<I(!new), U, E>(d: Site<I, U, E>, ws: seq<World<I, U, E>>, steps: seq<Step<I>>, n: nat, i: nat, id: nat)
    requires IsRun(d, ws, steps) && n <= i < |ws| && id in ws[n].calls
    ensures id in ws[i].calls
    ensures var a, b := ws[n].calls[id], ws[i].calls[id];
            a.handler == b.handler && a.fromCall == b.fromCall && a.input == b.input && a.version == b.version
  {
    hide Do, Enabled;
    if n < i {
      SameCall(d, ws, steps, n, i - 1, id);
      StepKeepsCall(d, ws[i - 1], steps[i - 1].op, steps[i - 1].now, id);
    }
  }

  lemma StepKeepsCall<I(!new), U, E>(d: Site<I, U, E>, w: World<I, U, E>, op: Op<I>, now: int, id: nat)
    requires Enabled(w, op) && id in w.calls
    ensures var w' := Do(d, w, op, now);
            && id in w'.calls
            && var a, b := w.calls[id], w'.calls[id];
               a.handler == b.handler && a.fromCall == b.fromCall && a.input == b.input && a.version == b.version
  {
    hide Advance, Complete, Execute;
  }

  /** When the winner of a dedupe job is done, the next caller with the same input gets in. */
  lemma FreeForTheNext<I(!new), U, E>(d: Site<I, U, E>, w: World<I, U, E>, winner: nat, next: nat, now: int, later: int)
    requires winner in w.calls && w.calls[winner].pc.Ran? && d.mode(w.calls[winner].handler).Dedupe?
    requires next in w.calls && next != winner && w.calls[next].pc.Looked? && Key(d, w.calls[next]) == Key(d, w.calls[winner])
    requires d.mode(w.calls[next].handler).Dedupe?
    ensures Do(d, Do(d, w, CallStep(winner), now), CallStep(next), later).calls[next].pc == Entered
  {
    Finishes(d, w, winner, now);
    var w' := Do(d, w, CallStep(winner), now);
    OthersStay(d, w, winner, next, now);
    AdmittedExactly(d, w', next, later);
    hide Do, Key;
  }

  lemma OthersStay<I(!new), U, E>(d: Site<I, U, E>, w: World<I, U, E>, id: nat, other: nat, now: int)
    requires id in w.calls && other in w.calls && other != id
    ensures other in Do(d, w, CallStep(id), now).calls && Do(d, w, CallStep(id), now).calls[other] == w.calls[other]
  {
    hide Advance;
  }

  /**
   What a later call with a stored result is told, in every run: in once mode that it is a
   duplicate, in the other modes with a cache what the handler returned.
   */
  lemma LaterCalls<I(!new), U(!new), E>(d: Site<I, U, E>, ws: seq<World<I, U, E>>, steps: seq<Step<I>>, i: nat, id: nat, now: int)
    requires Sound(d) && IsRun(d, ws, steps) && i < |ws| && id in ws[i].calls && ws[i].calls[id].pc.Begin?
    requires Caching(d.mode(ws[i].calls[id].handler))
    requires var c := ws[i].calls[id]; var key := Key(d, c);
             && key in ws[i].stores && ws[i].stores[key] != [] && !VersionDiff(ws[i].stores[key][0].row.version, c.version)
             && d.run(c.handler, LastOf(ws[i], key).ranAt, c.input).err.None?
    ensures var w, c := ws[i], ws[i].calls[id];
            Do(d, w, CallStep(id), now).calls[id].pc ==
            Returned(if d.mode(c.handler).Once? then Fails(Duplicated)
                     else Success(d.run(c.handler, LastOf(w, Key(d, c)).ranAt, c.input).output))
  {
    FirstLookup(d, ws, steps, i, id, now);
    hide Do, Key, VersionDiff, IsRun, Sound;
  }

  /** The result of a job that a worker has done answers the calls that come later. */
  lemma WorkerAnswersLaterCalls<I(!new), U(!new), E>(d: Site<I, U, E>, w: World<I, U, E>, worker: nat, delay: int, now: int)
    requires Enabled(w, FinishJob(worker, delay))
    requires var j := w.jobs[worker];
             && Caching(d.mode(j.handler)) && d.decIn(j.input).Some?
             && d.run(j.handler, j.ranAt, d.decIn(j.input).value).abort.NoAbort?
    ensures var j, w' := w.jobs[worker], Do(d, w, FinishJob(worker, delay), now);
            && j.key in w'.stores && w'.stores[j.key] != []
            && LastOf(w', j.key).ranAt == j.ranAt && LastOf(w', j.key).row.version == j.version
            && LastOf(w', j.key).input == d.decIn(j.input).value
  {
    hide VersionDiff, MarkDone, StoreResult;
  }

  /** Calls without cache and dedupe that have different request ids have different job ids. */
  lemma RequestsApart<I(!new), U(!new), E>(d: Site<I, U, E>, c: Call<I, U, E>, c': Call<I, U, E>)
    requires Sound(d) && c.handler == c'.handler && (d.mode(c.handler).Normal? || d.mode(c.handler).Async?)
    requires Key(d, c) == Key(d, c')
    ensures c.requestId == c'.requestId
  {
    JobId.SameName(d.hash, c.handler, d.encIn(c.input), c.requestId, c'.handler, d.encIn(c'.input), c'.requestId);
  }

  /** In every other mode calls with the same input have the same job id, whatever request they come from. */
  lemma RequestsShared<I(!new), U, E>(d: Site<I, U, E>, c: Call<I, U, E>, c': Call<I, U, E>)
    requires c.handler == c'.handler && c.input == c'.input && (Caching(d.mode(c.handler)) || Locking(d.mode(c.handler)))
    ensures Key(d, c) == Key(d, c')
  {
  }
}
