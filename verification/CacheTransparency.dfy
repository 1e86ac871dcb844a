/**
 What a cache may answer.  Every stored result is what its handler returns for its input at some
 version; a caller gets its own handler's output, or one that was stored under its own id.
 */
module CacheTransparency {
  import opened Wrappers
  import opened JobTable
  import opened CallJob
  import opened Versions
  import JobId

  // ---------------------------------------------------------------- rows

  /** `key` is the id of `handler` and the input encoded in `input`. */
  ghost predicate IdOf<I(!new), U, E>(d: Site<I, U, E>, key: string, handler: string, input: Bytes) {
    Hashes(d, handler, input) &&
    exists x, marker ::
      && input == d.encIn(x) && key == JobId.Of(d.hash, handler, input, marker)
      && (FlagsOf(d.mode(handler)).dedupe || FlagsOf(d.mode(handler)).cache ==> marker == "")
  }

  ghost predicate RowsOk<I(!new), U, E>(d: Site<I, U, E>, t: Table) {
    forall k :: k in t.rows ==> IdOf(d, k, t.rows[k].handler, t.rows[k].input)
  }

  /** Where a row's handler and input come from. */
  lemma RowComesFrom(t: Table, s: Statement, now: int, k: string)
    requires k in Execute(t, s, now).rows
    ensures var r := Execute(t, s, now).rows[k];
            || (k in t.rows && r.handler == t.rows[k].handler && r.input == t.rows[k].input)
            || (s.DoEnqueue? && s.key == k && r.handler == s.handler && r.input == s.input)
  {
  }

  lemma ExecuteKeepsRows<I(!new), U, E>(d: Site<I, U, E>, t: Table, s: Statement, now: int)
    requires RowsOk(d, t)
    requires s.DoEnqueue? ==> IdOf(d, s.key, s.handler, s.input)
    ensures RowsOk(d, Execute(t, s, now))
  {
    hide Execute, IdOf;
    forall k | k in Execute(t, s, now).rows
      ensures var r := Execute(t, s, now).rows[k]; IdOf(d, k, r.handler, r.input)
    {
      RowComesFrom(t, s, now, k);
    }
  }

  lemma KeyIsId<I(!new), U, E>(d: Site<I, U, E>, c: Call<I, U, E>)
    requires Hashes(d, c.handler, d.encIn(c.input))
    ensures IdOf(d, Key(d, c), c.handler, d.encIn(c.input))
  {
  }

  // ---------------------------------------------------------------- stored results

  lemma SameInput<I(!new), U(!new), E>(d: Site<I, U, E>, x: I, y: I)
    requires Sound(d) && d.encIn(x) == d.encIn(y)
    ensures x == y
  {
    assert d.decIn(d.encIn(x)) == Some(x) && d.decIn(d.encIn(y)) == Some(y);
  }

  /** A result was computed by its handler from its input, at a version that fits the one it is stored with. */
  ghost predicate StoredOk<I, U, E>(d: Site<I, U, E>, key: string, s: Stored<I>) {
    && FlagsOf(d.mode(s.row.handler)).cache && s.row.ttl == None && !VersionDiff(s.row.version, s.ranAt)
    && Hashes(d, s.row.handler, s.row.input)
    && s.row.input == d.encIn(s.input) && key == JobId.Of(d.hash, s.row.handler, s.row.input, "")
    && var run := d.run(s.row.handler, s.ranAt, s.input);
       && run.abort.NoAbort?
       && s.row.output == OutJson(d, run) && s.row.error == ErrJson(d, run) && s.row.status == DoneStatus(ErrJson(d, run))
  }

  /** A result that is stored under the id of a handler and an input is of that handler and that input. */
  lemma StoredFor<I(!new), U(!new), E>(d: Site<I, U, E>, key: string, s: Stored<I>, handler: string, x: I)
    requires Sound(d) && StoredOk(d, key, s) && key == JobId.Of(d.hash, handler, d.encIn(x), "")
    requires Hashes(d, handler, d.encIn(x))
    ensures s.row.handler == handler && s.input == x
  {
    JobId.Injective(d.hash, s.row.handler, s.row.input, "", handler, d.encIn(x), "");
    SameInput(d, s.input, x);
  }

  function RowsOf<I>(ss: seq<Stored<I>>): (rs: seq<ResultRow>)
    ensures |rs| == |ss| && forall i :: 0 <= i < |ss| ==> rs[i] == ss[i].row
  {
    seq(|ss|, i requires 0 <= i < |ss| => ss[i].row)
  }

  /** The results are what all that was stored adds up to. */
  ghost predicate HistoryOk<I(!new), U, E>(d: Site<I, U, E>, results: map<string, ResultRow>, stores: map<string, seq<Stored<I>>>) {
    && results.Keys == stores.Keys
    && forall k :: k in stores ==>
         && stores[k] != [] && results[k] == Merged(RowsOf(stores[k]))
         && forall s <- stores[k] :: StoredOk(d, k, s)
  }

  /** How one more result merges with those before it. */
  lemma MergedMore<I>(ss: seq<Stored<I>>, s: Stored<I>)
    ensures Merged(RowsOf(ss + [s])) ==
            if ss == [] then s.row
            else Merged(RowsOf(ss)).(output := s.row.output, error := s.row.error, status := s.row.status, updatedAt := s.row.updatedAt)
  {
  }

  lemma KeepKeepsHistory<I(!new), U(!new), E>(d: Site<I, U, E>, w: World<I, U, E>, key: string, s: Option<Stored<I>>)
    requires HistoryOk(d, w.results, w.stores) && (s.Some? ==> StoredOk(d, key, s.value))
    ensures HistoryOk(d, Keep(w, key, s).results, Keep(w, key, s).stores)
  {
    hide StoredOk, Merged, RowsOf;
    if s.Some? {
      var before := if key in w.stores then w.stores[key] else [];
      var w' := Keep(w, key, s);
      MergedMore(before, s.value);
      assert w'.results[key] == Merged(RowsOf(before + [s.value]));
      forall t | t in before + [s.value] ensures StoredOk(d, key, t) {}
      forall k | k in w'.stores && k != key
        ensures w'.stores[k] != [] && w'.results[k] == Merged(RowsOf(w'.stores[k])) && forall t <- w'.stores[k] :: StoredOk(d, k, t)
      {
        assert k in w.stores;
      }
    }
  }

  /** The answer that a stored run of a handler makes, if its outcome can be decoded. */
  function AnswerOf<I, U, E>(d: Site<I, U, E>, handler: string, r: Run<U, E>): Option<Answer<U, E>> {
    var once := FlagsOf(d.mode(handler)).errOnHit;
    match r.err
    case None => Some(if once then Fails(Duplicated) else Success(r.output))
    case Some(e) =>
      match d.decErr(d.encErr(e))
      case None => None
      case Some(e') => Some(Fails(if once then Duplicated else HandlerError(e')))
  }

  function LastOf<I, U, E>(w: World<I, U, E>, key: string): Stored<I>
    requires key in w.stores && w.stores[key] != []
  {
    w.stores[key][|w.stores[key]| - 1]
  }

  lemma UnmarshalsRun<I(!new), U(!new), E>(d: Site<I, U, E>, handler: string, at: string, version: string, r: Run<U, E>, now: int)
    requires Sound(d)
    ensures Unmarshal(d, handler, at, Finished(version, None, OutJson(d, r), ErrJson(d, r)), now) ==
            if VersionDiff(version, at) then None else AnswerOf(d, handler, r)
  {
    hide VersionDiff, FlagsOf;
    assert d.decOut(d.encOut(r.output)) == Some(r.output);
  }

  /** The table of results has the version of the first result stored under a key and the outcome of the last run. */
  lemma HitFinds<I(!new), U(!new), E>(d: Site<I, U, E>, w: World<I, U, E>, key: string, handler: string, x: I)
    requires Sound(d) && HistoryOk(d, w.results, w.stores) && key == JobId.Of(d.hash, handler, d.encIn(x), "")
    requires Hashes(d, handler, d.encIn(x))
    ensures Hit(w.table, w.results, key, false) ==
            if key !in w.stores then NotFound
            else
              var r := d.run(handler, w.stores[key][|w.stores[key]| - 1].ranAt, x);
              Finished(w.stores[key][0].row.version, None, OutJson(d, r), ErrJson(d, r))
  {
    hide VersionDiff, Sound;
    if key in w.stores {
      var first, last := w.stores[key][0], LastOf(w, key);
      assert first in w.stores[key] && last in w.stores[key];
      StoredFor(d, key, last, handler, x);
    }
  }

  /**
   What a lookup yields: whether it does depends on the version of the first result that was
   stored under the id, and what it yields on the run of the last.
   */
  lemma HitAnswers<I(!new), U(!new), E>(d: Site<I, U, E>, w: World<I, U, E>, c: Call<I, U, E>, now: int)
    requires Sound(d) && HistoryOk(d, w.results, w.stores) && FlagsOf(d.mode(c.handler)).cache
    requires Hashes(d, c.handler, d.encIn(c.input))
    ensures var key := Key(d, c); var l := Hit(w.table, w.results, key, false);
            && !l.Pending?
            && Unmarshal(d, c.handler, c.version, l, now) ==
               if key !in w.stores || VersionDiff(w.stores[key][0].row.version, c.version) then None
               else AnswerOf(d, c.handler, d.run(c.handler, LastOf(w, key).ranAt, c.input))
  {
    var key := Key(d, c);
    HitFinds(d, w, key, c.handler, c.input);
    if key in w.stores {
      var first, last := w.stores[key][0], LastOf(w, key);
      UnmarshalsRun(d, c.handler, c.version, first.row.version, d.run(c.handler, last.ranAt, c.input), now);
      hide Sound, HistoryOk, Unmarshal, AnswerOf, VersionDiff;
    }
  }

  // ---------------------------------------------------------------- what every run keeps

  /** `u` is the output of a run of the call's handler on its input whose result was stored. */
  ghost predicate FromStore<I(!new), U, E>(d: Site<I, U, E>, stores: map<string, seq<Stored<I>>>, c: Call<I, U, E>, u: U) {
    && Key(d, c) in stores && FlagsOf(d.mode(c.handler)).cache
    && exists s ::
         && s in stores[Key(d, c)]
         && d.run(c.handler, s.ranAt, c.input).err.None? && u == d.run(c.handler, s.ranAt, c.input).output
  }

  /** A successful answer is the output of the call's own run, or one from the store. */
  ghost predicate Truthful<I(!new), U, E>(d: Site<I, U, E>, stores: map<string, seq<Stored<I>>>, c: Call<I, U, E>) {
    var run := d.run(c.handler, c.version, c.input);
    match c.pc
    case Ran(r) => r == run
    case Closing(r) => r == run
    case Returned(Success(u)) =>
      (u == run.output && (run.err.None? || run.abort.Requeued?)) || FromStore(d, stores, c, u)
    case _ => true
  }

  /** What holds of every call: it answers truthfully, and never waits. */
  ghost predicate CallOk<I(!new), U, E>(d: Site<I, U, E>, stores: map<string, seq<Stored<I>>>, c: Call<I, U, E>) {
    && Truthful(d, stores, c) && !c.pc.Waiting? && Hashes(d, c.handler, d.encIn(c.input))
    && (c.pc.Rejected? ==> FlagsOf(d.mode(c.handler)).cache)
  }

  ghost predicate JobOk<I(!new), U, E>(d: Site<I, U, E>, j: Job) {
    IdOf(d, j.key, j.handler, j.input)
  }

  ghost predicate Inv<I(!new), U, E>(d: Site<I, U, E>, w: World<I, U, E>) {
    && RowsOk(d, w.table) && HistoryOk(d, w.results, w.stores)
    && (forall i :: i in w.calls ==> CallOk(d, w.stores, w.calls[i]))
    && (forall i :: i in w.jobs ==> JobOk(d, w.jobs[i]))
  }

  /** Every step of a call runs at most one statement on the rows, and that one fits its handler and input. */
  lemma AdvanceKeepsRows<I(!new), U, E>(d: Site<I, U, E>, t: Table, results: map<string, ResultRow>, c: Call<I, U, E>, now: int)
    requires RowsOk(d, t) && Hashes(d, c.handler, d.encIn(c.input))
    ensures RowsOk(d, Advance(d, t, results, c, now).table)
  {
    hide RowsOk, IdOf, Unmarshal;
    KeyIsId(d, c);
    var key, input := Key(d, c), d.encIn(c.input);
    ExecuteKeepsRows(d, t, DoEnqueue(c.handler, MetaOf(d, c, Queued), key, input), now);
    ExecuteKeepsRows(d, t, DoEnqueue(c.handler, MetaOf(d, c, Leased), key, input), now);
    ExecuteKeepsRows(d, t, DoFree(key), now);
  }

  lemma SameVersion(v: string)
    ensures !VersionDiff(v, v)
  {
  }

  lemma AdvanceStores<I(!new), U(!new), E>(d: Site<I, U, E>, w: World<I, U, E>, c: Call<I, U, E>, now: int)
    requires CallOk(d, w.stores, c)
    ensures var s := Advance(d, w.table, w.results, c, now).stored; s.Some? ==> StoredOk(d, Key(d, c), s.value)
    ensures Advance(d, w.table, w.results, c, now).stored.Some? ==> c.pc.Ran?
  {
    hide Unmarshal, Enqueue, Free, VersionDiff;
    SameVersion(c.version);
  }

  lemma AdvanceKeepsCall<I(!new), U(!new), E>(d: Site<I, U, E>, w: World<I, U, E>, c: Call<I, U, E>, now: int)
    requires Sound(d) && HistoryOk(d, w.results, w.stores) && CallOk(d, w.stores, c)
    ensures CallOk(d, w.stores, c.(pc := Advance(d, w.table, w.results, c, now).pc))
  {
    hide HistoryOk, Unmarshal, Sound, Enqueue, Free, StoreResult, VersionDiff;
    if FlagsOf(d.mode(c.handler)).cache {
      HitAnswers(d, w, c, now);
      var key := Key(d, c);
      if key in w.stores {
        HistoryNonEmpty(d, w, key);
        assert LastOf(w, key) in w.stores[key];
      }
    }
  }

  lemma HistoryNonEmpty<I(!new), U, E>(d: Site<I, U, E>, w: World<I, U, E>, key: string)
    requires HistoryOk(d, w.results, w.stores) && key in w.stores
    ensures w.stores[key] != []
  {
  }

  /** What was true of the stores stays true when more is stored. */
  lemma MoreStores<I(!new), U, E>(d: Site<I, U, E>, w: World<I, U, E>, key: string, s: Option<Stored<I>>, c: Call<I, U, E>)
    requires CallOk(d, w.stores, c)
    ensures CallOk(d, Keep(w, key, s).stores, c)
  {
    var more := Keep(w, key, s).stores;
    forall k, t | k in w.stores && t in w.stores[k] ensures k in more && t in more[k] {}
    if c.pc.Returned? && c.pc.answer.Success? && FromStore(d, w.stores, c, c.pc.answer.output) {
      var t :| t in w.stores[Key(d, c)]
               && d.run(c.handler, t.ranAt, c.input).err.None? && c.pc.answer.output == d.run(c.handler, t.ranAt, c.input).output;
      assert t in more[Key(d, c)];
    }
  }

  lemma CompleteKeepsRows<I(!new), U, E>(d: Site<I, U, E>, t: Table, j: Job, now: int, delay: int)
    requires RowsOk(d, t)
    ensures RowsOk(d, Complete(d, t, j, now, delay).0)
  {
    hide RowsOk, IdOf;
    ExecuteKeepsRows(d, t, DoFree(j.key), now);
    ExecuteKeepsRows(d, t, DoRequeue(j.key, delay), now);
    var x := d.decIn(j.input);
    if x.Some? {
      var r := d.run(j.handler, j.ranAt, x.value);
      ExecuteKeepsRows(d, t, DoMarkDone(j.key, DoneStatus(ErrJson(d, r)), None, OutJson(d, r), ErrJson(d, r)), now);
    }
  }

  lemma DecodesTo<I(!new), U(!new), E>(d: Site<I, U, E>, key: string, handler: string, input: Bytes) returns (x: I)
    requires Sound(d) && IdOf(d, key, handler, input)
    ensures d.decIn(input) == Some(x) && input == d.encIn(x) && Hashes(d, handler, input)
    ensures FlagsOf(d.mode(handler)).cache ==> key == JobId.Of(d.hash, handler, input, "")
  {
    var marker;
    x, marker :| input == d.encIn(x) && key == JobId.Of(d.hash, handler, input, marker)
                 && (FlagsOf(d.mode(handler)).dedupe || FlagsOf(d.mode(handler)).cache ==> marker == "");
    assert d.decIn(d.encIn(x)) == Some(x);
  }

  lemma CompleteStores<I(!new), U(!new), E>(d: Site<I, U, E>, t: Table, j: Job, now: int, delay: int)
    requires Sound(d) && JobOk(d, j) && !VersionDiff(j.version, j.ranAt)
    ensures var s := Complete(d, t, j, now, delay).1; s.Some? ==> StoredOk(d, j.key, s.value)
  {
    hide IdOf, Sound, Free, Requeue, MarkDone, VersionDiff;
    var x := DecodesTo(d, j.key, j.handler, j.input);
  }

  lemma TakeKeeps<I(!new), U, E>(d: Site<I, U, E>, w: World<I, U, E>, handlers: set<string>, lease: int, ranAt: string, now: int)
    requires RowsOk(d, w.table)
    ensures match Next(w.table, handlers, now)
            case None => true
            case Some(k) =>
              var r := w.table.rows[k];
              RowsOk(d, Lease(w.table, k, now, lease)) && JobOk(d, Job(k, r.handler, r.version, r.rootId, r.input, ranAt))
  {
    hide IdOf;
    ExecuteKeepsRows(d, w.table, DoDequeue(handlers, lease), now);
  }

  lemma StartOk<I(!new), U, E>(d: Site<I, U, E>, stores: map<string, seq<Stored<I>>>, handler: string, version: string, input: I,
                               fromCall: bool, requestId: string)
    requires Hashes(d, handler, d.encIn(input))
    ensures CallOk(d, stores, StartOf(d, handler, version, input, fromCall, requestId))
  {
  }

  lemma NestOk<I(!new), U, E>(d: Site<I, U, E>, stores: map<string, seq<Stored<I>>>, c: Call<I, U, E>, inner: Call<I, U, E>)
    requires CallOk(d, stores, c) && c.pc.Entered?
    ensures CallOk(d, stores, c.(root := Key(d, inner)))
  {
  }

  lemma CallHashes<I(!new), U, E>(d: Site<I, U, E>, stores: map<string, seq<Stored<I>>>, c: Call<I, U, E>)
    requires CallOk(d, stores, c)
    ensures Hashes(d, c.handler, d.encIn(c.input))
  {
  }

  lemma CallStepKeepsInv<I(!new), U(!new), E>(d: Site<I, U, E>, w: World<I, U, E>, id: nat, now: int)
    requires Sound(d) && Inv(d, w) && id in w.calls
    ensures Inv(d, Do(d, w, CallStep(id), now))
  {
    hide RowsOk, HistoryOk, IdOf, Advance, Sound, CallOk, JobOk, StoredOk;
    var c := w.calls[id];
    var e := Advance(d, w.table, w.results, c, now);
    CallHashes(d, w.stores, c);
    AdvanceKeepsRows(d, w.table, w.results, c, now);
    AdvanceStores(d, w, c, now);
    AdvanceKeepsCall(d, w, c, now);
    KeepKeepsHistory(d, w, Key(d, c), e.stored);
    forall i | i in w.calls ensures CallOk(d, Keep(w, Key(d, c), e.stored).stores, w.calls[i]) {
      MoreStores(d, w, Key(d, c), e.stored, w.calls[i]);
    }
    MoreStores(d, w, Key(d, c), e.stored, c.(pc := e.pc));
    hide Keep, Key;
    KeepFrame(w, Key(d, c), e.stored);
  }

  lemma KeepFrame<I, U, E>(w: World<I, U, E>, key: string, s: Option<Stored<I>>)
    ensures var w' := Keep(w, key, s); w'.table == w.table && w'.calls == w.calls && w'.jobs == w.jobs
  {
  }

  lemma FinishKeepsInv<I(!new), U(!new), E>(d: Site<I, U, E>, w: World<I, U, E>, worker: nat, delay: int, now: int)
    requires Sound(d) && Inv(d, w) && Enabled(w, FinishJob(worker, delay))
    ensures Inv(d, Do(d, w, FinishJob(worker, delay), now))
  {
    hide RowsOk, HistoryOk, IdOf, Complete, Sound, CallOk, JobOk, StoredOk, VersionDiff;
    var j := w.jobs[worker];
    var (t, s) := Complete(d, w.table, j, now, delay);
    CompleteKeepsRows(d, w.table, j, now, delay);
    CompleteStores(d, w.table, j, now, delay);
    KeepKeepsHistory(d, w, j.key, s);
    forall i | i in w.calls ensures CallOk(d, Keep(w, j.key, s).stores, w.calls[i]) {
      MoreStores(d, w, j.key, s, w.calls[i]);
    }
    hide Keep;
    KeepFrame(w, j.key, s);
  }

  lemma NewCallKeepsInv<I(!new), U(!new), E>(d: Site<I, U, E>, w: World<I, U, E>, id: nat, c: Call<I, U, E>)
    requires Inv(d, w) && CallOk(d, w.stores, c)
    ensures Inv(d, w.(calls := w.calls[id := c]))
  {
    hide RowsOk, HistoryOk, CallOk, JobOk;
  }

  lemma TakeKeepsInv<I(!new), U(!new), E>(d: Site<I, U, E>, w: World<I, U, E>, op: Op<I>, now: int)
    requires Inv(d, w) && Enabled(w, op) && op.Take?
    ensures Inv(d, Do(d, w, op, now))
  {
    hide RowsOk, HistoryOk, CallOk, JobOk;
    TakeKeeps(d, w, op.handlers, op.lease, op.ranAt, now);
  }

  lemma OtherKeepsInv<I(!new), U(!new), E>(d: Site<I, U, E>, w: World<I, U, E>, op: Op<I>, now: int)
    requires Inv(d, w) && Enabled(w, op) && (op.Other? || op.Crash?)
    ensures Inv(d, Do(d, w, op, now))
  {
    hide RowsOk, HistoryOk, CallOk, JobOk, Execute;
    if op.Other? {
      ExecuteKeepsRows(d, w.table, op.statement, now);
    }
  }

  lemma StepKeepsInv<I(!new), U(!new), E>(d: Site<I, U, E>, w: World<I, U, E>, op: Op<I>, now: int)
    requires Sound(d) && Inv(d, w) && Enabled(w, op)
    requires op.NewCall? ==> Hashes(d, op.handler, d.encIn(op.input))
    ensures Inv(d, Do(d, w, op, now))
  {
    match op
    case NewCall(id, handler, version, input, fromCall, requestId) =>
      StartOk(d, w.stores, handler, version, input, fromCall, requestId);
      hide Inv, StartOf;
      NewCallKeepsInv(d, w, id, StartOf(d, handler, version, input, fromCall, requestId));
    case CallStep(id) =>
      hide Inv, Do;
      CallStepKeepsInv(d, w, id, now);
    case Nest(id, inner) =>
      CallsOk(d, w, id);
      NestOk(d, w.stores, w.calls[id], w.calls[inner]);
      hide Inv, Key;
      NewCallKeepsInv(d, w, id, w.calls[id].(root := Key(d, w.calls[inner])));
    case Take(_, _, _, _) =>
      hide Inv, Do;
      TakeKeepsInv(d, w, op, now);
    case FinishJob(worker, delay) =>
      hide Inv, Do;
      FinishKeepsInv(d, w, worker, delay, now);
    case Crash(_) =>
      hide Inv, Do;
      OtherKeepsInv(d, w, op, now);
    case Other(_) =>
      hide Inv, Do;
      OtherKeepsInv(d, w, op, now);
  }

  lemma CallsOk<I(!new), U, E>(d: Site<I, U, E>, w: World<I, U, E>, id: nat)
    requires Inv(d, w) && id in w.calls
    ensures CallOk(d, w.stores, w.calls[id])
  {
  }

  /** In every run the invariant holds throughout. */
  lemma {:induction false} RunKeepsInv<I(!new), U(!new), E>(d: Site<I, U, E>, ws: seq<World<I, U, E>>, steps: seq<Step<I>>, i: nat)
    requires Sound(d) && IsRun(d, ws, steps) && i < |ws|
    ensures Inv(d, ws[i])
  {
    if i > 0 {
      RunKeepsInv(d, ws, steps, i - 1);
      StepKeepsInv(d, ws[i - 1], steps[i - 1].op, steps[i - 1].now);
    }
  }

  // ---------------------------------------------------------------- what callers see

  /**
   In every interleaving, at any mix of versions, a successful answer is the handler's output for
   the input of the call: at the caller's version, or at the version of a run whose result is
   stored under the call's id.  The one exception is an error with a requeue mark.
   */
  lemma Transparent<I(!new), U(!new), E>(d: Site<I, U, E>, ws: seq<World<I, U, E>>, steps: seq<Step<I>>, i: nat, id: nat, u: U)
    requires Sound(d) && IsRun(d, ws, steps) && i < |ws|
    requires id in ws[i].calls && ws[i].calls[id].pc == Returned(Success(u))
    ensures var c := ws[i].calls[id]; var run := d.run(c.handler, c.version, c.input);
            (u == run.output && (run.err.None? || run.abort.Requeued?)) || FromStore(d, ws[i].stores, c, u)
  {
    RunKeepsInv(d, ws, steps, i);
    CallsOk(d, ws[i], id);
  }

  /** Whoever runs the handler is told of its error if and only if it has one and no requeue mark. */
  lemma ErrorIsReported<I(!new), U(!new), E>(d: Site<I, U, E>, ws: seq<World<I, U, E>>, steps: seq<Step<I>>, i: nat, id: nat, now: int)
    requires Sound(d) && IsRun(d, ws, steps) && i < |ws| && id in ws[i].calls && ws[i].calls[id].pc.Closing?
    ensures var c := ws[i].calls[id]; var run := d.run(c.handler, c.version, c.input);
            var answer := Do(d, ws[i], CallStep(id), now).calls[id].pc;
            && (run.err.Some? && !run.abort.Requeued? ==> answer == Returned(Fails(HandlerError(run.err.value))))
            && (run.err.None? || run.abort.Requeued? ==> answer == Returned(Success(run.output)))
  {
    RunKeepsInv(d, ws, steps, i);
    CallsOk(d, ws[i], id);
    hide Inv, HistoryOk, RowsOk, Enqueue;
  }

  /** A persistent cache never makes a caller wait: who loses the race for a job is told of a backend error. */
  lemma NeverWaits<I(!new), U(!new), E>(d: Site<I, U, E>, ws: seq<World<I, U, E>>, steps: seq<Step<I>>, i: nat, id: nat)
    requires Sound(d) && IsRun(d, ws, steps) && i < |ws| && id in ws[i].calls
    ensures !ws[i].calls[id].pc.Waiting?
  {
    RunKeepsInv(d, ws, steps, i);
    CallsOk(d, ws[i], id);
  }

  /** What a lookup of call `c` finds: nothing it can use, or the outcome of the last run stored under its id. */
  function Found<I, U, E>(d: Site<I, U, E>, w: World<I, U, E>, c: Call<I, U, E>): Option<Answer<U, E>> {
    var key := Key(d, c);
    if key !in w.stores || w.stores[key] == [] || VersionDiff(w.stores[key][0].row.version, c.version) then None
    else AnswerOf(d, c.handler, d.run(c.handler, LastOf(w, key).ranAt, c.input))
  }

  /**
   What the loser of a race for a once or memoized job is told depends on what is stored by then
   and on nothing else; before the winner has stored its result it is a backend error.
   */
  lemma LosersAnswer<I(!new), U(!new), E>(d: Site<I, U, E>, ws: seq<World<I, U, E>>, steps: seq<Step<I>>, i: nat, id: nat, now: int)
    requires Sound(d) && IsRun(d, ws, steps) && i < |ws| && id in ws[i].calls && ws[i].calls[id].pc.Rejected?
    ensures var w, c := ws[i], ws[i].calls[id];
            Do(d, w, CallStep(id), now).calls[id].pc ==
            Returned(if Found(d, w, c).Some? then Found(d, w, c).value else Fails(BackendError))
  {
    RunKeepsInv(d, ws, steps, i);
    var w, c := ws[i], ws[i].calls[id];
    CallsOk(d, w, id);
    HitAnswers(d, w, c, now);
    hide Inv, HistoryOk, RowsOk, Unmarshal, AnswerOf;
  }

  /** So does whether a call of a handler with a cache is answered at once. */
  lemma FirstLookup<I(!new), U(!new), E>(d: Site<I, U, E>, ws: seq<World<I, U, E>>, steps: seq<Step<I>>, i: nat, id: nat, now: int)
    requires Sound(d) && IsRun(d, ws, steps) && i < |ws| && id in ws[i].calls && ws[i].calls[id].pc.Begin?
    requires FlagsOf(d.mode(ws[i].calls[id].handler)).cache
    ensures var w, c := ws[i], ws[i].calls[id];
            Do(d, w, CallStep(id), now).calls[id].pc == match Found(d, w, c) case Some(a) => Returned(a) case None => Looked
  {
    RunKeepsInv(d, ws, steps, i);
    var w, c := ws[i], ws[i].calls[id];
    CallsOk(d, w, id);
    HitAnswers(d, w, c, now);
    hide Inv, HistoryOk, RowsOk, Unmarshal, AnswerOf;
  }
}
