/**
 Caches while several versions of a handler are deployed.  Ids do not name a version and storing a
 second result does not replace the version of the first, so who is answered and by what come apart.
 */
module CacheVersions {
  import opened Wrappers
  import opened JobTable
  import opened CallJob
  import opened CacheTransparency
  import opened Versions
  import JobId

  // ---------------------------------------------------------------- one version

  /** Every call and every worker has its handler at the version `at` says. */
  ghost predicate OneVersion<I(!new), U, E>(ws: seq<World<I, U, E>>, steps: seq<Step<I>>, at: string -> string) {
    && (forall i :: 0 <= i < |steps| && steps[i].op.NewCall? ==> steps[i].op.version == at(steps[i].op.handler))
    && (forall i, k :: 0 <= i < |ws| && k in ws[i].jobs ==> ws[i].jobs[k].ranAt == at(ws[i].jobs[k].handler))
  }

  ghost predicate AllAt<I(!new), U, E>(w: World<I, U, E>, at: string -> string) {
    && (forall i :: i in w.calls ==> w.calls[i].version == at(w.calls[i].handler))
    && (forall k, s :: k in w.stores && s in w.stores[k] ==> s.ranAt == at(s.row.handler))
  }

  /** What a step stores was run by the call or the worker itself. */
  lemma AdvanceVersion<I(!new), U, E>(d: Site<I, U, E>, w: World<I, U, E>, c: Call<I, U, E>, now: int)
    ensures var s := Advance(d, w.table, w.results, c, now).stored;
            s.Some? ==> s.value.ranAt == c.version && s.value.row.handler == c.handler
  {
    hide Unmarshal, Enqueue, Free, Hit, Key;
  }

  lemma CompleteVersion<I(!new), U, E>(d: Site<I, U, E>, t: Table, j: Job, now: int, delay: int)
    ensures var s := Complete(d, t, j, now, delay).1;
            s.Some? ==> s.value.ranAt == j.ranAt && s.value.row.handler == j.handler
  {
    hide Free, MarkDone, Requeue;
  }

  lemma StepKeepsVersion<I(!new), U, E>(d: Site<I, U, E>, w: World<I, U, E>, op: Op<I>, now: int, at: string -> string)
    requires Enabled(w, op) && AllAt(w, at)
    requires op.NewCall? ==> op.version == at(op.handler)
    requires forall k :: k in w.jobs ==> w.jobs[k].ranAt == at(w.jobs[k].handler)
    ensures AllAt(Do(d, w, op, now), at)
  {
    hide Advance, Complete, Execute, Key, VersionDiff;
    match op
    case CallStep(id) => AdvanceVersion(d, w, w.calls[id], now);
    case FinishJob(worker, delay) => CompleteVersion(d, w.table, w.jobs[worker], now, delay);
    case _ =>
  }

  lemma {:induction false} RunKeepsVersion<I(!new), U, E>(d: Site<I, U, E>, ws: seq<World<I, U, E>>, steps: seq<Step<I>>, i: nat,
                                                          at: string -> string)
    requires IsRun(d, ws, steps) && i < |ws| && OneVersion(ws, steps, at)
    ensures AllAt(ws[i], at)
  {
    if i > 0 {
      RunKeepsVersion(d, ws, steps, i - 1, at);
      StepKeepsVersion(d, ws[i - 1], steps[i - 1].op, steps[i - 1].now, at);
    }
  }

  /** While a handler is deployed at one version, a successful answer is its output, but for an error with a requeue mark. */
  lemma TransparentAtOneVersion<I(!new), U(!new), E>(d: Site<I, U, E>, ws: seq<World<I, U, E>>, steps: seq<Step<I>>, i: nat, id: nat,
                                                     u: U, at: string -> string)
    requires Sound(d) && IsRun(d, ws, steps) && i < |ws| && OneVersion(ws, steps, at)
    requires id in ws[i].calls && ws[i].calls[id].pc == Returned(Success(u))
    ensures var c := ws[i].calls[id]; var run := d.run(c.handler, at(c.handler), c.input);
            u == run.output && (run.err.None? || run.abort.Requeued?)
  {
    Transparent(d, ws, steps, i, id, u);
    RunKeepsVersion(d, ws, steps, i, at);
    RunKeepsInv(d, ws, steps, i);
    var w, c := ws[i], ws[i].calls[id];
    var key := Key(d, c);
    if FromStore(d, w.stores, c, u) {
      var s :| s in w.stores[key] && d.run(c.handler, s.ranAt, c.input).err.None? && u == d.run(c.handler, s.ranAt, c.input).output;
      StoredFor(d, key, s, c.handler, c.input);
    }
  }

  // ---------------------------------------------------------------- several versions

  /**
   A lookup is answered with a result of another major or minor version if and only if the first
   result stored under the id is of the caller's, the last one is not, and its outcome can be decoded.
   */
  lemma ForeignAnswer<I(!new), U(!new), E>(d: Site<I, U, E>, ws: seq<World<I, U, E>>, steps: seq<Step<I>>, i: nat, id: nat, now: int)
    requires Sound(d) && IsRun(d, ws, steps) && i < |ws| && id in ws[i].calls && ws[i].calls[id].pc.Begin?
    requires var c := ws[i].calls[id]; var key := Key(d, c);
             FlagsOf(d.mode(c.handler)).cache && key in ws[i].stores && ws[i].stores[key] != []
    ensures var w, c := ws[i], ws[i].calls[id];
            var first, last := w.stores[Key(d, c)][0], LastOf(w, Key(d, c));
            var answer := AnswerOf(d, c.handler, d.run(c.handler, last.ranAt, c.input));
            var pc := Do(d, w, CallStep(id), now).calls[id].pc;
            && (pc.Returned? && VersionDiff(last.ranAt, c.version) <==>
                !VersionDiff(first.row.version, c.version) && VersionDiff(last.ranAt, c.version) && answer.Some?)
            && (pc.Returned? ==> answer == Some(pc.answer))
  {
    FirstLookup(d, ws, steps, i, id, now);
    hide Do, AnswerOf, VersionDiff, IsRun, Sound;
  }

  ghost predicate Grown<I(!new), U, E>(w: World<I, U, E>, w': World<I, U, E>) {
    forall k :: k in w.stores ==> k in w'.stores && w.stores[k] <= w'.stores[k]
  }

  lemma StepGrows<I(!new), U, E>(d: Site<I, U, E>, w: World<I, U, E>, op: Op<I>, now: int)
    requires Enabled(w, op)
    ensures Grown(w, Do(d, w, op, now))
  {
    hide Unmarshal, Enqueue, Free, Hit, MarkDone, Requeue, Execute, Key, Advance, Complete;
  }

  lemma GrownFurther<I(!new), U, E>(w: World<I, U, E>, w': World<I, U, E>, w'': World<I, U, E>)
    requires Grown(w, w') && Grown(w', w'')
    ensures Grown(w, w'')
  {
    forall k | k in w.stores ensures k in w''.stores && w.stores[k] <= w''.stores[k] {
      assert w.stores[k] <= w'.stores[k] <= w''.stores[k];
    }
  }

  lemma GrownNot<I(!new), U, E>(w: World<I, U, E>)
    ensures Grown(w, w)
  {
  }

  lemma {:induction false} StoresGrow<I(!new), U, E>(d: Site<I, U, E>, ws: seq<World<I, U, E>>, steps: seq<Step<I>>, i: nat, j: nat)
    requires IsRun(d, ws, steps) && i <= j < |ws|
    ensures Grown(ws[i], ws[j])
  {
    hide Grown, Do, Enabled;
    if i < j {
      StoresGrow(d, ws, steps, i, j - 1);
      StepGrows(d, ws[j - 1], steps[j - 1].op, steps[j - 1].now);
      GrownFurther(ws[i], ws[j - 1], ws[j]);
    } else {
      GrownNot(ws[i]);
    }
  }

  /** Once the first result under an id is of another major or minor version, a caller never hits again, whatever it stores. */
  lemma NeverHitsAgain<I(!new), U(!new), E>(d: Site<I, U, E>, ws: seq<World<I, U, E>>, steps: seq<Step<I>>, i: nat, j: nat, id: nat, now: int)
    requires Sound(d) && IsRun(d, ws, steps) && i <= j < |ws| && id in ws[j].calls && ws[j].calls[id].pc.Begin?
    requires var c := ws[j].calls[id]; var key := Key(d, c);
             && FlagsOf(d.mode(c.handler)).cache && key in ws[i].stores && ws[i].stores[key] != []
             && VersionDiff(ws[i].stores[key][0].row.version, c.version)
    ensures Do(d, ws[j], CallStep(id), now).calls[id].pc == Looked
  {
    FirstLookup(d, ws, steps, j, id, now);
    StoresGrow(d, ws, steps, i, j);
    var key := Key(d, ws[j].calls[id]);
    assert ws[i].stores[key] <= ws[j].stores[key];
  }

  // ---------------------------------------------------------------- runs

  function Last<T>(s: seq<T>): T
    requires s != []
  {
    s[|s| - 1]
  }

  lemma Extend<I(!new), U, E>(d: Site<I, U, E>, ws: seq<World<I, U, E>>, steps: seq<Step<I>>, op: Op<I>)
      returns (ws': seq<World<I, U, E>>, steps': seq<Step<I>>)
    requires IsRun(d, ws, steps) && Enabled(Last(ws), op) && (op.NewCall? ==> Hashes(d, op.handler, d.encIn(op.input)))
    ensures IsRun(d, ws', steps') && ws' != [] && Last(ws') == Do(d, Last(ws), op, 0)
  {
    hide Do, Enabled;
    ws', steps' := ws + [Do(d, Last(ws), op, 0)], steps + [Step(op, 0)];
    forall i | 0 <= i < |steps'| ensures Enabled(ws'[i], steps'[i].op) && ws'[i + 1] == Do(d, ws'[i], steps'[i].op, steps'[i].now) {
      if i < |steps| {
        assert ws'[i] == ws[i] && steps'[i] == steps[i] && ws'[i + 1] == ws[i + 1];
      } else {
        assert ws'[i] == Last(ws) && steps'[i] == Step(op, 0);
      }
    }
  }

  function AtPc<I, U, E>(w: World<I, U, E>, id: nat, pc: Pc<U, E>): World<I, U, E>
    requires id in w.calls
  {
    w.(calls := w.calls[id := w.calls[id].(pc := pc)])
  }

  /** A call of a handler in cache mode goes on from its first lookup, undisturbed. */
  lemma PlainSteps<I(!new), U, E>(d: Site<I, U, E>, w: World<I, U, E>, id: nat)
    requires id in w.calls && d.mode(w.calls[id].handler) == Mode.Cache
    ensures w.calls[id].pc.Looked? ==> Do(d, w, CallStep(id), 0) == AtPc(w, id, Entered)
    ensures var c := w.calls[id]; w.calls[id].pc.Entered? ==>
              Do(d, w, CallStep(id), 0) == AtPc(w, id, Ran(d.run(c.handler, c.version, c.input)))
  {
  }

  lemma RanStep<I(!new), U, E>(d: Site<I, U, E>, w: World<I, U, E>, id: nat)
    requires id in w.calls && d.mode(w.calls[id].handler) == Mode.Cache && w.calls[id].pc.Ran?
    ensures var c := w.calls[id]; var r := c.pc.run; var key := Key(d, c);
            Do(d, w, CallStep(id), 0) == AtPc(
              Keep(w, key, if r.abort.NoAbort?
                           then Some(Stored(NewResult(d, c.handler, c.version, c.root, d.encIn(c.input), key, r, 0), c.version, c.input))
                           else None),
              id, Closing(r))
  {
  }

  lemma ClosingStep<I(!new), U, E>(d: Site<I, U, E>, w: World<I, U, E>, id: nat)
    requires id in w.calls && w.calls[id].pc.Closing?
    ensures var w' := Do(d, w, CallStep(id), 0);
            && w'.calls == w.calls[id := w.calls[id].(pc := Returned(Answered(w.calls[id].pc.run)))]
            && w'.stores == w.stores
  {
    hide Enqueue;
  }

  /** A call that finds nothing it can use runs its handler. */
  lemma MissesAndRuns<I(!new), U(!new), E>(d: Site<I, U, E>, ws: seq<World<I, U, E>>, steps: seq<Step<I>>, id: nat)
      returns (ws': seq<World<I, U, E>>, steps': seq<Step<I>>)
    requires Sound(d) && IsRun(d, ws, steps) && id in Last(ws).calls && Last(ws).calls[id].pc.Begin?
    requires d.mode(Last(ws).calls[id].handler) == Mode.Cache && Found(d, Last(ws), Last(ws).calls[id]) == None
    ensures IsRun(d, ws', steps') && ws' != []
    ensures var c := Last(ws).calls[id]; Last(ws') == AtPc(Last(ws), id, Ran(d.run(c.handler, c.version, c.input)))
  {
    var w := Last(ws);
    FirstLookup(d, ws, steps, |ws| - 1, id, 0);
    FirstMiss(d, w, id);
    hide Found, Do, Advance, IsRun, Sound;
    ws', steps' := Extend(d, ws, steps, CallStep(id));
    PlainSteps(d, Last(ws'), id);
    ws', steps' := Extend(d, ws', steps', CallStep(id));
    PlainSteps(d, Last(ws'), id);
    ws', steps' := Extend(d, ws', steps', CallStep(id));
  }

  /** A call that finds nothing it can use runs its handler, stores its result unless aborted, and returns. */
  lemma Misses<I(!new), U(!new), E>(d: Site<I, U, E>, ws: seq<World<I, U, E>>, steps: seq<Step<I>>, id: nat)
      returns (ws': seq<World<I, U, E>>, steps': seq<Step<I>>)
    requires Sound(d) && IsRun(d, ws, steps) && id in Last(ws).calls && Last(ws).calls[id].pc.Begin?
    requires d.mode(Last(ws).calls[id].handler) == Mode.Cache && Found(d, Last(ws), Last(ws).calls[id]) == None
    ensures IsRun(d, ws', steps') && ws' != []
    ensures var w, w', c := Last(ws), Last(ws'), Last(ws).calls[id];
            var r, key := d.run(c.handler, c.version, c.input), Key(d, c);
            && w'.calls == w.calls[id := c.(pc := Returned(Answered(r)))]
            && if !r.abort.NoAbort? then w'.stores == w.stores
               else
                 && key in w'.stores && w'.stores[key] != []
                 && w'.stores == w.stores[key := w'.stores[key]]
                 && w'.stores[key][..|w'.stores[key]| - 1] == (if key in w.stores then w.stores[key] else [])
                 && LastOf(w', key).ranAt == LastOf(w', key).row.version == c.version
  {
    assert ws != [];
    hide Found, Do, Advance, IsRun, Key, NewResult, Sound;
    var c := Last(ws).calls[id];
    var r := d.run(c.handler, c.version, c.input);
    ws', steps' := MissesAndRuns(d, ws, steps, id);
    RanStep(d, Last(ws'), id);
    KeySame(d, c, Ran(r));
    ws', steps' := Extend(d, ws', steps', CallStep(id));
    ClosingStep(d, Last(ws'), id);
    ws', steps' := Extend(d, ws', steps', CallStep(id));
    NewResultVersion(d, c.handler, c.version, c.root, d.encIn(c.input), Key(d, c), r);
  }

  lemma NewResultVersion<I, U, E>(d: Site<I, U, E>, handler: string, version: string, root: string, input: Bytes, key: string, r: Run<U, E>)
    ensures NewResult(d, handler, version, root, input, key, r, 0).version == version
  {
  }

  lemma KeySame<I, U, E>(d: Site<I, U, E>, c: Call<I, U, E>, pc: Pc<U, E>)
    ensures Key(d, c.(pc := pc)) == Key(d, c)
  {
  }

  lemma FirstMiss<I(!new), U, E>(d: Site<I, U, E>, w: World<I, U, E>, id: nat)
    requires id in w.calls && w.calls[id].pc.Begin? && Do(d, w, CallStep(id), 0).calls[id].pc == Looked
    ensures Do(d, w, CallStep(id), 0) == AtPc(w, id, Looked)
  {
    hide Unmarshal, Hit;
  }

  lemma KeyInCache<I, U, E>(d: Site<I, U, E>, c: Call<I, U, E>)
    requires d.mode(c.handler) == Mode.Cache
    ensures Key(d, c) == JobId.Of(d.hash, c.handler, d.encIn(c.input), "")
  {
  }

  /** A new call of a handler in cache mode, which finds what is stored under its id. */
  lemma Starts<I(!new), U(!new), E>(d: Site<I, U, E>, ws: seq<World<I, U, E>>, steps: seq<Step<I>>, id: nat,
                                    handler: string, version: string, x: I)
      returns (ws': seq<World<I, U, E>>, steps': seq<Step<I>>)
    requires IsRun(d, ws, steps) && id !in Last(ws).calls && d.mode(handler) == Mode.Cache && Hashes(d, handler, d.encIn(x))
    ensures IsRun(d, ws', steps') && ws' != []
    ensures var w, w' := Last(ws), Last(ws'); var key := JobId.Of(d.hash, handler, d.encIn(x), "");
            && w'.stores == w.stores && w'.calls.Keys == w.calls.Keys + {id}
            && var c := w'.calls[id];
               && c.handler == handler && c.version == version && c.input == x && c.pc == Begin && Key(d, c) == key
               && Found(d, w', c) == if key !in w.stores || w.stores[key] == [] || VersionDiff(w.stores[key][0].row.version, version) then None
                                     else AnswerOf(d, handler, d.run(handler, LastOf(w, key).ranAt, x))
  {
    ws', steps' := Extend(d, ws, steps, NewCall(id, handler, version, x, false, ""));
    KeyInCache(d, Last(ws').calls[id]);
    hide Key, AnswerOf, VersionDiff, IsRun;
  }

  lemma EmptyRun<I(!new), U, E>(d: Site<I, U, E>) returns (ws: seq<World<I, U, E>>, steps: seq<Step<I>>)
    ensures IsRun(d, ws, steps) && ws != [] && Last(ws).stores == map[] && Last(ws).calls == map[]
  {
    ws, steps := [World(Table(map[], 1), map[], map[], map[], map[])], [];
  }

  /** A call at version `v` and one at version `u` leave the version of the first with the output of the second. */
  lemma TwoVersionsStored<I(!new), U(!new), E>(d: Site<I, U, E>, handler: string, x: I, v: string, u: string)
      returns (ws: seq<World<I, U, E>>, steps: seq<Step<I>>)
    requires Sound(d) && Hashes(d, handler, d.encIn(x)) && d.mode(handler) == Mode.Cache && VersionDiff(v, u)
    requires d.run(handler, v, x).abort.NoAbort? && d.run(handler, u, x).abort.NoAbort?
    ensures IsRun(d, ws, steps) && ws != [] && Last(ws).calls.Keys == {0, 1}
    ensures var stores, key := Last(ws).stores, JobId.Of(d.hash, handler, d.encIn(x), "");
            key in stores && |stores[key]| == 2 && stores[key][0].row.version == v && stores[key][1].ranAt == u
  {
    hide IsRun, Key, Found, Do, VersionDiff, Sound;
    ws, steps := EmptyRun(d);
    ws, steps := Starts(d, ws, steps, 0, handler, v, x);
    ws, steps := Misses(d, ws, steps, 0);
    ws, steps := Starts(d, ws, steps, 1, handler, u, x);
    ws, steps := Misses(d, ws, steps, 1);
  }

  /** A call at version `v`, one at version `u`, and again one at `v`, which is given the output of `u`. */
  lemma UpgradeMixesVersions<I(!new), U(!new), E>(d: Site<I, U, E>, handler: string, x: I, v: string, u: string)
      returns (ws: seq<World<I, U, E>>, steps: seq<Step<I>>)
    requires Sound(d) && Hashes(d, handler, d.encIn(x)) && d.mode(handler) == Mode.Cache && VersionDiff(v, u)
    requires d.run(handler, v, x).abort.NoAbort? && d.run(handler, u, x).abort.NoAbort? && d.run(handler, u, x).err.None?
    ensures IsRun(d, ws, steps) && ws != []
    ensures var w := Last(ws);
            && 2 in w.calls && w.calls[2].version == v && w.calls[2].handler == handler && w.calls[2].input == x
            && w.calls[2].pc == Returned(Success(d.run(handler, u, x).output))
  {
    SameVersion(v);
    ws, steps := TwoVersionsStored(d, handler, x, v, u);
    hide IsRun, Key, Found, Do, VersionDiff, Sound;
    ws, steps := Starts(d, ws, steps, 2, handler, v, x);
    FirstLookup(d, ws, steps, |ws| - 1, 2, 0);
    OneCallMoves(d, Last(ws), 2);
    ws, steps := Extend(d, ws, steps, CallStep(2));
  }

  lemma OneCallMoves<I(!new), U, E>(d: Site<I, U, E>, w: World<I, U, E>, id: nat)
    requires id in w.calls
    ensures var w' := Do(d, w, CallStep(id), 0); id in w'.calls && w'.calls[id] == w.calls[id].(pc := w'.calls[id].pc)
  {
    hide Advance;
  }

  /** A call that answers success although its handler returned an error: the handler asked to be requeued. */
  lemma RequeueHidesError<I(!new), U(!new), E>(d: Site<I, U, E>, handler: string, x: I, v: string)
      returns (ws: seq<World<I, U, E>>, steps: seq<Step<I>>)
    requires Sound(d) && Hashes(d, handler, d.encIn(x)) && d.mode(handler) == Mode.Cache
    requires d.run(handler, v, x).err.Some? && d.run(handler, v, x).abort.Requeued?
    ensures IsRun(d, ws, steps) && ws != []
    ensures 0 in Last(ws).calls && Last(ws).calls[0].pc == Returned(Success(d.run(handler, v, x).output))
  {
    hide IsRun, Key, Found, Do, VersionDiff, Sound;
    ws, steps := EmptyRun(d);
    ws, steps := Starts(d, ws, steps, 0, handler, v, x);
    ws, steps := Misses(d, ws, steps, 0);
  }
}
