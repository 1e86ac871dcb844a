/**
 Who gets to run a handler that admits by Enqueue: of all calls with one id, at any mix of
 versions and among any number of workers.
 */
module CallAdmission {
  import opened Wrappers
  import opened JobTable
  import opened CallJob
  import opened CacheTransparency
  import JobId

  /** No handler's name goes on behind another one's with a hash of that one. */
  ghost predicate Apart<I, U, E>(d: Site<I, U, E>) {
    forall h, h', x :: h in d.names && h' in d.names ==> !JobId.Swallows(d.hash, h', h, x)
  }

  /** The id of a handler that dedupes is no other handler's. */
  lemma KeyOwner<I(!new), U(!new), E>(d: Site<I, U, E>, handler: string, x: I, other: string, input: Bytes)
    requires Sound(d) && Apart(d) && Hashes(d, handler, d.encIn(x))
    requires IdOf(d, JobId.Of(d.hash, handler, d.encIn(x), ""), other, input)
    ensures other == handler
  {
    var y, marker :| input == d.encIn(y) && JobId.Of(d.hash, handler, d.encIn(x), "") == JobId.Of(d.hash, other, input, marker);
    JobId.Injective(d.hash, handler, d.encIn(x), "", other, input, marker);
  }

  lemma CallOwner<I(!new), U(!new), E>(d: Site<I, U, E>, handler: string, x: I, c: Call<I, U, E>)
    requires Sound(d) && Apart(d) && Hashes(d, handler, d.encIn(x)) && Hashes(d, c.handler, d.encIn(c.input))
    requires Key(d, c) == JobId.Of(d.hash, handler, d.encIn(x), "")
    ensures c.handler == handler
  {
    KeyIsId(d, c);
    KeyOwner(d, handler, x, c.handler, d.encIn(c.input));
  }

  // ---------------------------------------------------------------- admission

  /**
   Whether a call that is about to enqueue itself gets to run its handler: exactly when there is no
   row of its id, or a done one whose TTL is over.  Otherwise it is rejected, with a second look at
   the cache if there is one.
   */
  lemma AdmittedExactly<I(!new), U, E>(d: Site<I, U, E>, w: World<I, U, E>, id: nat, now: int)
    requires id in w.calls && w.calls[id].pc.Looked? && FlagsOf(d.mode(w.calls[id].handler)).dedupe
    ensures var c, rows := w.calls[id], w.table.rows; var key := Key(d, c);
            var pc := Do(d, w, CallStep(id), now).calls[id].pc;
            && (pc == Entered <==>
                key !in rows || (rows[key].status == Done && rows[key].ttl.Some? && rows[key].ttl.value < now))
            && (pc != Entered ==>
                pc == if d.mode(c.handler).Dedupe? then Returned(Fails(Duplicated)) else Rejected)
  {
    hide Enqueue;
  }

  predicate NoTtl(t: Table, key: string) {
    key in t.rows ==> t.rows[key].ttl == None
  }

  /** A row without TTL stays unless it is freed, and gets one only from Enqueue or a done mark. */
  lemma StaysWithoutTtl(t: Table, s: Statement, now: int, key: string)
    requires NoTtl(t, key)
    requires s.DoEnqueue? && s.key == key ==> s.meta.ttl == None
    requires s.DoMarkDone? && s.key == key ==> s.ttl == None
    ensures NoTtl(Execute(t, s, now), key)
    ensures key in t.rows && s != DoFree(key) ==> key in Execute(t, s, now).rows
  {
  }

  /** Whether the next step of a call deletes the row of its id. */
  predicate Frees<I, U, E>(d: Site<I, U, E>, c: Call<I, U, E>) {
    c.pc.Ran? && d.mode(c.handler).Dedupe?
  }

  lemma AdvanceRow<I(!new), U, E>(d: Site<I, U, E>, t: Table, results: map<string, ResultRow>, c: Call<I, U, E>, now: int, key: string)
    requires NoTtl(t, key)
    ensures var t' := Advance(d, t, results, c, now).table;
            NoTtl(t', key) && (key in t.rows && !(Frees(d, c) && Key(d, c) == key) ==> key in t'.rows)
  {
    hide NoTtl, Unmarshal, Key;
    var k, input := Key(d, c), d.encIn(c.input);
    StaysWithoutTtl(t, DoEnqueue(c.handler, MetaOf(d, c, Queued), k, input), now, key);
    StaysWithoutTtl(t, DoEnqueue(c.handler, MetaOf(d, c, Leased), k, input), now, key);
    StaysWithoutTtl(t, DoFree(k), now, key);
  }

  lemma CompleteRow<I(!new), U, E>(d: Site<I, U, E>, t: Table, j: Job, now: int, delay: int, key: string)
    requires NoTtl(t, key)
    ensures var t' := Complete(d, t, j, now, delay).0;
            && NoTtl(t', key)
            && (key in t.rows && (j.key != key || (d.decIn(j.input).Some? && FlagsOf(d.mode(j.handler)).cache)) ==> key in t'.rows)
  {
    hide NoTtl;
    StaysWithoutTtl(t, DoFree(j.key), now, key);
    StaysWithoutTtl(t, DoRequeue(j.key, delay), now, key);
    var x := d.decIn(j.input);
    if x.Some? {
      var r := d.run(j.handler, j.ranAt, x.value);
      StaysWithoutTtl(t, DoMarkDone(j.key, DoneStatus(ErrJson(d, r)), None, OutJson(d, r), ErrJson(d, r)), now, key);
    }
  }

  /** Nobody from outside frees `key` or gives it a TTL. */
  predicate LeftAlone<I>(op: Op<I>, key: string) {
    match op
    case Other(DoFree(k)) => k != key
    case Other(DoMarkDone(k, _, ttl, _, _)) => k == key ==> ttl == None
    case _ => true
  }

  /** Whether the step takes the row of `key` away: a call of plain dedupe that is done, or a worker. */
  ghost predicate Removing<I, U, E>(d: Site<I, U, E>, w: World<I, U, E>, op: Op<I>, key: string)
    requires Enabled(w, op)
  {
    match op
    case CallStep(id) => Frees(d, w.calls[id]) && Key(d, w.calls[id]) == key
    case FinishJob(worker, _) =>
      var j := w.jobs[worker];
      j.key == key && !(d.decIn(j.input).Some? && FlagsOf(d.mode(j.handler)).cache)
    case _ => false
  }

  lemma StepRow<I(!new), U, E>(d: Site<I, U, E>, w: World<I, U, E>, op: Op<I>, now: int, key: string)
    requires Enabled(w, op) && LeftAlone(op, key) && NoTtl(w.table, key)
    ensures NoTtl(Do(d, w, op, now).table, key)
    ensures key in w.table.rows && !Removing(d, w, op, key) ==> key in Do(d, w, op, now).table.rows
  {
    hide NoTtl, Key, Advance, Complete, Execute;
    match op
    case CallStep(id) => AdvanceRow(d, w.table, w.results, w.calls[id], now, key);
    case FinishJob(worker, delay) => CompleteRow(d, w.table, w.jobs[worker], now, delay, key);
    case Take(_, _, _, _) => TakeRow(d, w, op, now, key);
    case Other(s) => StaysWithoutTtl(w.table, s, now, key);
    case _ =>
  }

  lemma TakeRow<I(!new), U, E>(d: Site<I, U, E>, w: World<I, U, E>, op: Op<I>, now: int, key: string)
    requires Enabled(w, op) && op.Take? && NoTtl(w.table, key)
    ensures NoTtl(Do(d, w, op, now).table, key) && (key in w.table.rows ==> key in Do(d, w, op, now).table.rows)
  {
  }

  // ---------------------------------------------------------------- calls with one id

  /** Running the handler, or about to, or with its outcome in hand. */
  predicate Inside<U, E>(pc: Pc<U, E>) {
    pc.Entered? || pc.Ran? || pc.Closing?
  }

  /** Step `n` lets call `id` in, whose id is `key`. */
  ghost predicate LetsIn<I(!new), U, E>(d: Site<I, U, E>, ws: seq<World<I, U, E>>, steps: seq<Step<I>>, n: nat, id: nat, key: string) {
    && n < |steps| && n + 1 < |ws| && steps[n].op == CallStep(id) && id in ws[n].calls && id in ws[n + 1].calls
    && ws[n].calls[id].pc.Looked? && ws[n + 1].calls[id].pc.Entered? && Key(d, ws[n].calls[id]) == key
  }

  /** How a step moves one call. */
  lemma CallMoves<I(!new), U, E>(d: Site<I, U, E>, w: World<I, U, E>, op: Op<I>, now: int, id: nat)
    requires Enabled(w, op) && id in Do(d, w, op, now).calls
    ensures var w' := Do(d, w, op, now);
            if id !in w.calls then w'.calls[id].pc.Begin?
            else
              && Key(d, w'.calls[id]) == Key(d, w.calls[id]) && w'.calls[id].handler == w.calls[id].handler
              && (op != CallStep(id) ==> w'.calls[id].pc == w.calls[id].pc)
              && (op == CallStep(id) && Inside(w'.calls[id].pc) && !Inside(w.calls[id].pc) ==>
                    w.calls[id].pc.Looked? && w'.calls[id].pc.Entered?)
  {
    hide Unmarshal, Enqueue, Free, Hit, Complete, Execute;
  }

  lemma {:induction false} WasLetIn<I(!new), U, E>(d: Site<I, U, E>, ws: seq<World<I, U, E>>, steps: seq<Step<I>>, i: nat, id: nat)
      returns (n: nat)
    requires IsRun(d, ws, steps) && i < |ws| && id in ws[i].calls && Inside(ws[i].calls[id].pc)
    ensures n < i && LetsIn(d, ws, steps, n, id, Key(d, ws[i].calls[id]))
  {
    hide Do, Key;
    CallMoves(d, ws[i - 1], steps[i - 1].op, steps[i - 1].now, id);
    if Inside(ws[i - 1].calls[id].pc) {
      n := WasLetIn(d, ws, steps, i - 1, id);
    } else {
      n := i - 1;
    }
  }

  ghost predicate AllLeftAlone<I(!new)>(steps: seq<Step<I>>, key: string) {
    forall i :: 0 <= i < |steps| ==> LeftAlone(steps[i].op, key)
  }

  lemma {:induction false} RunNoTtl<I(!new), U, E>(d: Site<I, U, E>, ws: seq<World<I, U, E>>, steps: seq<Step<I>>, i: nat, key: string)
    requires IsRun(d, ws, steps) && i < |ws| && AllLeftAlone(steps, key)
    ensures NoTtl(ws[i].table, key)
  {
    hide Do, Enabled, LeftAlone;
    if i > 0 {
      RunNoTtl(d, ws, steps, i - 1, key);
      StepRow(d, ws[i - 1], steps[i - 1].op, steps[i - 1].now, key);
    }
  }

  /** Nothing takes away the row of a handler with a cache. */
  lemma CachedStays<I(!new), U(!new), E>(d: Site<I, U, E>, w: World<I, U, E>, op: Op<I>, handler: string, x: I)
    requires Sound(d) && Apart(d) && Inv(d, w) && Enabled(w, op)
    requires Hashes(d, handler, d.encIn(x)) && FlagsOf(d.mode(handler)).cache
    ensures !Removing(d, w, op, JobId.Of(d.hash, handler, d.encIn(x), ""))
  {
    hide Sound, Apart, RowsOk, HistoryOk, Key, JobId.Of, Hashes;
    var key := JobId.Of(d.hash, handler, d.encIn(x), "");
    match op
    case CallStep(id) =>
      if Key(d, w.calls[id]) == key {
        CallsOk(d, w, id);
        CallHashes(d, w.stores, w.calls[id]);
        CallOwner(d, handler, x, w.calls[id]);
      }
    case FinishJob(worker, _) =>
      var j := w.jobs[worker];
      if j.key == key {
        KeyOwner(d, handler, x, j.handler, j.input);
        var y := DecodesTo(d, j.key, j.handler, j.input);
      }
    case _ =>
  }

  /** Once a call is in, the row of its id stays, without TTL. */
  lemma {:induction false} RowStays<I(!new), U(!new), E>(d: Site<I, U, E>, ws: seq<World<I, U, E>>, steps: seq<Step<I>>, n: nat, m: nat,
                                                         id: nat, handler: string, x: I)
    requires Sound(d) && Apart(d) && IsRun(d, ws, steps) && n < m < |ws|
    requires Hashes(d, handler, d.encIn(x)) && FlagsOf(d.mode(handler)).cache && FlagsOf(d.mode(handler)).dedupe
    requires var key := JobId.Of(d.hash, handler, d.encIn(x), ""); AllLeftAlone(steps, key) && LetsIn(d, ws, steps, n, id, key)
    ensures JobId.Of(d.hash, handler, d.encIn(x), "") in ws[m].table.rows
  {
    hide Sound, Apart, Do, Enabled, Key, JobId.Of, Hashes, Removing, LeftAlone, Inv;
    var key := JobId.Of(d.hash, handler, d.encIn(x), "");
    RunKeepsInv(d, ws, steps, m - 1);
    RunNoTtl(d, ws, steps, m - 1, key);
    if n + 1 < m {
      RowStays(d, ws, steps, n, m - 1, id, handler, x);
      CachedStays(d, ws[m - 1], steps[m - 1].op, handler, x);
      StepRow(d, ws[m - 1], steps[m - 1].op, steps[m - 1].now, key);
    } else {
      EnteringLeavesRow(d, ws[n], id, steps[n].now, handler, x);
    }
  }

  lemma EnteringLeavesRow<I(!new), U(!new), E>(d: Site<I, U, E>, w: World<I, U, E>, id: nat, now: int, handler: string, x: I)
    requires Sound(d) && Apart(d) && Inv(d, w) && id in w.calls && w.calls[id].pc.Looked?
    requires Do(d, w, CallStep(id), now).calls[id].pc.Entered?
    requires Hashes(d, handler, d.encIn(x)) && FlagsOf(d.mode(handler)).dedupe
    requires Key(d, w.calls[id]) == JobId.Of(d.hash, handler, d.encIn(x), "")
    ensures Key(d, w.calls[id]) in Do(d, w, CallStep(id), now).table.rows
    ensures Admits(w.table, Key(d, w.calls[id]), now)
  {
    CallsOk(d, w, id);
    CallHashes(d, w.stores, w.calls[id]);
    CallOwner(d, handler, x, w.calls[id]);
    hide Sound, Apart, Inv, Key, JobId.Of, Hashes;
  }

  lemma HeldIsClosed<I(!new), U(!new), E>(d: Site<I, U, E>, w: World<I, U, E>, id: nat, now: int, handler: string, x: I)
    requires Sound(d) && Apart(d) && Inv(d, w) && id in w.calls && w.calls[id].pc.Looked?
    requires Hashes(d, handler, d.encIn(x)) && FlagsOf(d.mode(handler)).dedupe
    requires Key(d, w.calls[id]) == JobId.Of(d.hash, handler, d.encIn(x), "")
    requires Key(d, w.calls[id]) in w.table.rows && NoTtl(w.table, Key(d, w.calls[id]))
    ensures !Do(d, w, CallStep(id), now).calls[id].pc.Entered?
  {
    if Do(d, w, CallStep(id), now).calls[id].pc.Entered? {
      EnteringLeavesRow(d, w, id, now, handler, x);
    }
  }

  /**
   Of all calls of a once or memoized handler with one input, at most one ever runs it: the one
   that is let in first, whatever workers and reapers do.
   */
  lemma RunsForOneCaller<I(!new), U(!new), E>(d: Site<I, U, E>, ws: seq<World<I, U, E>>, steps: seq<Step<I>>, i: nat, j: nat,
                                              a: nat, b: nat, handler: string, x: I)
    requires Sound(d) && Apart(d) && IsRun(d, ws, steps) && i < |ws| && j < |ws|
    requires Hashes(d, handler, d.encIn(x)) && (d.mode(handler).Once? || d.mode(handler).Memoized?)
    requires var key := JobId.Of(d.hash, handler, d.encIn(x), "");
             && AllLeftAlone(steps, key)
             && a in ws[i].calls && Key(d, ws[i].calls[a]) == key && Inside(ws[i].calls[a].pc)
             && b in ws[j].calls && Key(d, ws[j].calls[b]) == key && Inside(ws[j].calls[b].pc)
    ensures a == b
  {
    hide Sound, Apart, Do, Key, JobId.Of, Hashes, Inv, AllLeftAlone, NoTtl;
    var n := WasLetIn(d, ws, steps, i, a);
    var m := WasLetIn(d, ws, steps, j, b);
    if n < m {
      SecondIsShut(d, ws, steps, n, m, a, b, handler, x);
    } else if m < n {
      SecondIsShut(d, ws, steps, m, n, b, a, handler, x);
    }
  }

  /** After one call of a once or memoized job was let in no other one is. */
  lemma SecondIsShut<I(!new), U(!new), E>(d: Site<I, U, E>, ws: seq<World<I, U, E>>, steps: seq<Step<I>>, n: nat, m: nat,
                                          a: nat, b: nat, handler: string, x: I)
    requires Sound(d) && Apart(d) && IsRun(d, ws, steps) && n < m < |ws|
    requires Hashes(d, handler, d.encIn(x)) && FlagsOf(d.mode(handler)).cache && FlagsOf(d.mode(handler)).dedupe
    requires var key := JobId.Of(d.hash, handler, d.encIn(x), ""); AllLeftAlone(steps, key) && LetsIn(d, ws, steps, n, a, key)
    ensures !LetsIn(d, ws, steps, m, b, JobId.Of(d.hash, handler, d.encIn(x), ""))
  {
    hide Sound, Apart, Do, Key, JobId.Of, Hashes, Inv, AllLeftAlone, NoTtl;
    var key := JobId.Of(d.hash, handler, d.encIn(x), "");
    RowStays(d, ws, steps, n, m, a, handler, x);
    RunKeepsInv(d, ws, steps, m);
    RunNoTtl(d, ws, steps, m, key);
    if LetsIn(d, ws, steps, m, b, key) {
      HeldIsClosed(d, ws[m], b, steps[m].now, handler, x);
    }
  }

  // ---------------------------------------------------------------- plain dedupe

  /** Between being let in and freeing the row. */
  ghost predicate Holding<I(!new), U, E>(d: Site<I, U, E>, w: World<I, U, E>, id: nat, key: string) {
    id in w.calls && Key(d, w.calls[id]) == key && (w.calls[id].pc.Entered? || w.calls[id].pc.Ran?)
  }

  /** At most one call of `key` runs, and while it does the row is there. */
  ghost predicate OneHolds<I(!new), U, E>(d: Site<I, U, E>, w: World<I, U, E>, key: string) {
    && (forall a, b :: Holding(d, w, a, key) && Holding(d, w, b, key) ==> a == b)
    && (forall a :: Holding(d, w, a, key) ==> key in w.table.rows)
  }

  /** No worker finishes a job of `key`, nobody from outside frees it or gives it a TTL. */
  predicate NotTaken<I, U, E>(w: World<I, U, E>, op: Op<I>, key: string) {
    LeftAlone(op, key) && (op.FinishJob? && op.worker in w.jobs ==> w.jobs[op.worker].key != key)
  }

  lemma StepKeepsOneHolds<I(!new), U(!new), E>(d: Site<I, U, E>, w: World<I, U, E>, op: Op<I>, now: int, handler: string, x: I)
    requires Sound(d) && Apart(d) && Inv(d, w) && Enabled(w, op)
    requires Hashes(d, handler, d.encIn(x)) && FlagsOf(d.mode(handler)).dedupe
    requires var key := JobId.Of(d.hash, handler, d.encIn(x), "");
             NotTaken(w, op, key) && NoTtl(w.table, key) && OneHolds(d, w, key)
    ensures OneHolds(d, Do(d, w, op, now), JobId.Of(d.hash, handler, d.encIn(x), ""))
  {
    var key := JobId.Of(d.hash, handler, d.encIn(x), "");
    var w' := Do(d, w, op, now);
    StepRow(d, w, op, now, key);
    forall a | Holding(d, w', a, key)
      ensures key in w'.table.rows
      ensures Holding(d, w, a, key) || (op == CallStep(a) && key !in w.table.rows)
    {
      HolderComesFrom(d, w, op, now, handler, x, a);
    }
    hide Sound, Apart, Inv, Do, Key, JobId.Of, Hashes, NoTtl, LeftAlone;
  }

  /** Who holds a key after a step held it before, or was let in now and found it free. */
  lemma HolderComesFrom<I(!new), U(!new), E>(d: Site<I, U, E>, w: World<I, U, E>, op: Op<I>, now: int, handler: string, x: I, a: nat)
    requires Sound(d) && Apart(d) && Inv(d, w) && Enabled(w, op)
    requires Hashes(d, handler, d.encIn(x)) && FlagsOf(d.mode(handler)).dedupe
    requires var key := JobId.Of(d.hash, handler, d.encIn(x), "");
             && NotTaken(w, op, key) && NoTtl(w.table, key) && OneHolds(d, w, key)
             && Holding(d, Do(d, w, op, now), a, key)
    ensures var key := JobId.Of(d.hash, handler, d.encIn(x), "");
            && key in Do(d, w, op, now).table.rows
            && (Holding(d, w, a, key) || (op == CallStep(a) && key !in w.table.rows))
  {
    hide Sound, Apart, Inv, Do, Key, JobId.Of, Hashes, NoTtl, LeftAlone;
    var key := JobId.Of(d.hash, handler, d.encIn(x), "");
    CallMoves(d, w, op, now, a);
    StepRow(d, w, op, now, key);
    if Holding(d, w, a, key) {
      if op.CallStep? && Holding(d, w, op.id, key) {
        assert op.id == a;
        RanIsOver(d, w, a, now);
      }
    } else {
      EntersAlone(d, w, op, now, a);
      if key in w.table.rows {
        HeldIsClosed(d, w, a, now, handler, x);
      } else {
        EnteringLeavesRow(d, w, a, now, handler, x);
      }
    }
  }

  lemma RanIsOver<I(!new), U, E>(d: Site<I, U, E>, w: World<I, U, E>, a: nat, now: int)
    requires a in w.calls
    ensures w.calls[a].pc.Ran? ==> Do(d, w, CallStep(a), now).calls[a].pc.Closing?
    ensures Frees(d, w.calls[a]) ==> w.calls[a].pc.Ran?
  {
  }

  /** Only a call that was looking can come to hold. */
  lemma EntersAlone<I(!new), U, E>(d: Site<I, U, E>, w: World<I, U, E>, op: Op<I>, now: int, a: nat)
    requires Enabled(w, op) && a in Do(d, w, op, now).calls
    requires var c := Do(d, w, op, now).calls[a]; c.pc.Entered? || c.pc.Ran?
    requires a in w.calls ==> !w.calls[a].pc.Entered? && !w.calls[a].pc.Ran?
    ensures op == CallStep(a) && a in w.calls && w.calls[a].pc.Looked? && Do(d, w, op, now).calls[a].pc.Entered?
  {
    hide Unmarshal, Enqueue, Free, Hit, Complete, Execute, Key;
  }

  /** No two calls of a dedupe handler with one input run it at a time, as long as no worker and nobody from outside ends its job. */
  lemma {:induction false} OneAtATime<I(!new), U(!new), E>(d: Site<I, U, E>, ws: seq<World<I, U, E>>, steps: seq<Step<I>>, i: nat,
                                                           handler: string, x: I)
    requires Sound(d) && Apart(d) && IsRun(d, ws, steps) && i < |ws|
    requires Hashes(d, handler, d.encIn(x)) && FlagsOf(d.mode(handler)).dedupe
    requires forall j :: 0 <= j < |steps| ==> NotTaken(ws[j], steps[j].op, JobId.Of(d.hash, handler, d.encIn(x), ""))
    ensures OneHolds(d, ws[i], JobId.Of(d.hash, handler, d.encIn(x), ""))
  {
    hide Sound, Apart, Do, Key, JobId.Of, Hashes, Inv, NoTtl;
    if i > 0 {
      OneAtATime(d, ws, steps, i - 1, handler, x);
      RunKeepsInv(d, ws, steps, i - 1);
      RunNoTtl(d, ws, steps, i - 1, JobId.Of(d.hash, handler, d.encIn(x), ""));
      StepKeepsOneHolds(d, ws[i - 1], steps[i - 1].op, steps[i - 1].now, handler, x);
    }
  }
}
