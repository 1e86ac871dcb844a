/**
 Calls of `call_job` and workers on one job store, without TTLs: each access to the store,
 each run of a handler, is one step, and all of them interleave.  Nodes may run different
 versions of a handler at the same time.
 */
module CallJob {
  import opened Wrappers
  import opened JobTable
  import opened Versions
  import JobId

  // ---------------------------------------------------------------- what is deployed

  datatype Abort = NoAbort | Requeued | AbortOnly

  /** What a handler returns for an input, and whether it asked to be requeued or not to be stored. */
  datatype Run<U, E> = Run(output: U, err: Option<E>, abort: Abort)

  datatype Flags = Flags(async: bool, cache: bool, dedupe: bool, errOnHit: bool)

  datatype Mode = Normal | Async | Cache | Dedupe | Once | Memoized | Dispatch

  function FlagsOf(m: Mode): Flags {
    match m
    case Normal => Flags(false, false, false, false)
    case Async => Flags(true, false, false, false)
    case Cache => Flags(false, true, false, false)
    case Dedupe => Flags(false, false, true, false)
    case Once => Flags(false, true, true, true)
    case Memoized => Flags(false, true, true, false)
    case Dispatch => Flags(true, true, false, false)
  }

  /**
   The handlers by name and version, as functions of their input, and the codecs and hash in use;
   `names` are the handlers that are called while the site is looked at, and `hashed` the strings
   that their ids are made of.
   */
  datatype Site<!I, !U, !E> = Site(
    run: (string, string, I) -> Run<U, E>, mode: string -> Mode, priority: string -> int,
    encIn: I -> Bytes, decIn: Bytes -> Option<I>,
    encOut: U -> Bytes, decOut: Bytes -> Option<U>,
    encErr: E -> Bytes, decErr: Bytes -> Option<E>,
    hash: string -> string, names: set<string>, hashed: set<string>)

  /** Inputs and outputs survive their codecs; no two of the strings that are hashed collide. */
  ghost predicate Sound<I(!new), U(!new), E>(d: Site<I, U, E>) {
    && (forall x :: d.decIn(d.encIn(x)) == Some(x))
    && (forall u :: d.decOut(d.encOut(u)) == Some(u))
    && JobId.IsDigest(d.hash) && JobId.NoCollision(d.hash, d.hashed)
  }

  /** The handler, and the string whose hash is in the id, are among those looked at. */
  predicate Hashes<I, U, E>(d: Site<I, U, E>, handler: string, input: Bytes) {
    handler in d.names && handler + input in d.hashed
  }

  // ---------------------------------------------------------------- outputs in the store

  function OutJson<I, U, E>(d: Site<I, U, E>, r: Run<U, E>): Option<Bytes> {
    if r.err.None? then Some(d.encOut(r.output)) else None
  }

  function ErrJson<I, U, E>(d: Site<I, U, E>, r: Run<U, E>): Option<Bytes> {
    if r.err.None? then None else Some(d.encErr(r.err.value))
  }

  datatype Failure<E> = HandlerError(error: E) | JobPending(id: string) | Duplicated | BackendError

  datatype Answer<U, E> = Success(output: U) | Fails(failure: Failure<E>)

  /** What a caller at version `at` makes of a lookup; `None` is a system error, after which it goes on. */
  function Unmarshal<I, U, E>(d: Site<I, U, E>, handler: string, at: string, l: Lookup, now: int): Option<Answer<U, E>> {
    match l
    case NotFound => None
    case Pending => None
    case Finished(version, ttl, output, error) =>
      if VersionDiff(version, at) || Before(ttl, now) then None
      else if output.Some? then
        match d.decOut(output.value)
        case None => None
        case Some(u) => Some(if FlagsOf(d.mode(handler)).errOnHit then Fails(Duplicated) else Success(u))
      else if error.Some? then
        match d.decErr(error.value)
        case None => None
        case Some(e) => Some(Fails(if FlagsOf(d.mode(handler)).errOnHit then Duplicated else HandlerError(e)))
      else None
  }

  // ---------------------------------------------------------------- the processes

  datatype Pc<U, E> =
    | Begin                      // before the first lookup
    | Looked                     // nothing cached; before Enqueue
    | Rejected                   // Enqueue returned false; before the second lookup
    | Waiting                    // polling for the result
    | Entered                    // about to run the handler
    | Ran(run: Run<U, E>)        // before the result is stored or the lock freed
    | Closing(run: Run<U, E>)    // before a requeue that the handler asked for
    | Returned(answer: Answer<U, E>)

  /** `root` is the root job id of the request; calls that the handler makes overwrite it. */
  datatype Call<I, U, E> = Call(handler: string, version: string, input: I, fromCall: bool, requestId: string, root: string,
                                pc: Pc<U, E>)

  /** A dequeued job; `ranAt` is the version at which the worker has the handler. */
  datatype Job = Job(key: string, handler: string, version: string, root: string, input: Bytes, ranAt: string)

  /** A result as it was handed to the store, with the version and the input that it was computed from. */
  datatype Stored<I> = Stored(row: ResultRow, ranAt: string, input: I)

  /** `stores` is a history variable: what was ever stored under each key. */
  datatype World<I, U, E> = World(
    table: Table, results: map<string, ResultRow>, stores: map<string, seq<Stored<I>>>,
    calls: map<nat, Call<I, U, E>>, jobs: map<nat, Job>)

  datatype Op<I> =
    | NewCall(id: nat, handler: string, version: string, input: I, fromCall: bool, requestId: string)
    | CallStep(id: nat)
    | Nest(id: nat, inner: nat)
    | Take(worker: nat, handlers: set<string>, lease: int, ranAt: string)
    | FinishJob(worker: nat, delay: int)
    | Crash(worker: nat)
    | Other(statement: Statement)

  function Key<I, U, E>(d: Site<I, U, E>, c: Call<I, U, E>): string {
    var flags := FlagsOf(d.mode(c.handler));
    JobId.Of(d.hash, c.handler, d.encIn(c.input), if flags.dedupe || flags.cache then "" else c.requestId)
  }

  function MetaOf<I, U, E>(d: Site<I, U, E>, c: Call<I, U, E>, status: Status): Meta {
    Meta(c.version, status, Key(d, c), c.root, None, d.priority(c.handler))
  }

  function NewResult<I, U, E>(d: Site<I, U, E>, handler: string, version: string, root: string, input: Bytes, key: string,
                              r: Run<U, E>, now: int): ResultRow
  {
    ResultRow(handler, version, DoneStatus(ErrJson(d, r)), key, root, None, input, OutJson(d, r), ErrJson(d, r), now, now)
  }

  function Answered<U, E>(r: Run<U, E>): Answer<U, E> {
    if r.abort.Requeued? then Success(r.output)  // the error of Enqueue, which is nil, replaces the handler's
    else if r.err.None? then Success(r.output)
    else Fails(HandlerError(r.err.value))
  }

  /** What a step does: the table after it, what it stores under the call's or the job's key, and where a call then is. */
  datatype Effect<I, U, E> = Effect(table: Table, stored: Option<Stored<I>>, pc: Pc<U, E>)

  /** The next step of a call. */
  function Advance<I, U, E>(d: Site<I, U, E>, t: Table, results: map<string, ResultRow>, c: Call<I, U, E>, now: int)
    : Effect<I, U, E>
  {
    var flags, key := FlagsOf(d.mode(c.handler)), Key(d, c);
    var input, asyncExec := d.encIn(c.input), c.fromCall && flags.async;
    match c.pc
    case Begin =>
      if !flags.cache then Effect(t, None, Looked)
      else
        (match Unmarshal(d, c.handler, c.version, Hit(t, results, key, false), now)
         case Some(a) => Effect(t, None, Returned(a))
         case None => Effect(t, None, Looked))
    case Looked =>
      if asyncExec then
        Effect(Enqueue(t, c.handler, MetaOf(d, c, Queued), key, input, now), None, Returned(Fails(JobPending(key))))
      else if flags.dedupe then
        Effect(Enqueue(t, c.handler, MetaOf(d, c, Leased), key, input, now), None,
               if Admits(t, key, now) then Entered else if flags.cache then Rejected else Returned(Fails(Duplicated)))
      else Effect(t, None, Entered)
    case Rejected =>
      var l := Hit(t, results, key, false);
      (match Unmarshal(d, c.handler, c.version, l, now)
       case Some(a) => Effect(t, None, Returned(a))
       case None => Effect(t, None, if l.Pending? then Waiting else Returned(Fails(BackendError))))
    case Waiting =>
      var l := Hit(t, results, key, false);
      if !l.Finished? then Effect(t, None, Waiting)
      else
        (match Unmarshal(d, c.handler, c.version, l, now)
         case Some(a) => Effect(t, None, Returned(a))
         case None => Effect(t, None, Returned(Fails(BackendError))))
    case Entered => Effect(t, None, Ran(d.run(c.handler, c.version, c.input)))
    case Ran(r) =>
      if flags.cache then
        Effect(t,
               if r.abort.NoAbort?
               then Some(Stored(NewResult(d, c.handler, c.version, c.root, input, key, r, now), c.version, c.input))
               else None,
               Closing(r))
      else if flags.dedupe then Effect(Free(t, key), None, Closing(r))
      else Effect(t, None, Closing(r))
    case Closing(r) =>
      Effect(if r.abort.Requeued?
             then Enqueue(t, c.handler, MetaOf(d, c, if asyncExec then Queued else Leased), key, input, now)
             else t,
             None, Returned(Answered(r)))
    case Returned(a) => Effect(t, None, c.pc)
  }

  /** A worker's decode, run, encode, and what it then does with the job. */
  function Complete<I, U, E>(d: Site<I, U, E>, t: Table, j: Job, now: int, delay: int): (Table, Option<Stored<I>>) {
    match d.decIn(j.input)
    case None => (Free(t, j.key), None)
    case Some(x) =>
      var r := d.run(j.handler, j.ranAt, x);
      if !r.abort.NoAbort? then (Requeue(t, j.key, now, delay), None)
      else if FlagsOf(d.mode(j.handler)).cache then
        (MarkDone(t, j.key, DoneStatus(ErrJson(d, r)), None, OutJson(d, r), ErrJson(d, r), now),
         Some(Stored(NewResult(d, j.handler, j.version, j.root, j.input, j.key, r, now), j.ranAt, x)))
      else (Free(t, j.key), None)
  }

  function Keep<I, U, E>(w: World<I, U, E>, key: string, s: Option<Stored<I>>): World<I, U, E> {
    match s
    case None => w
    case Some(s) =>
      w.(results := StoreResult(w.results, key, s.row),
         stores := w.stores[key := (if key in w.stores then w.stores[key] else []) + [s]])
  }

  /** A worker at another major or minor version calls a hook that need not be set, and is then gone. */
  predicate Enabled<I, U, E>(w: World<I, U, E>, op: Op<I>) {
    match op
    case NewCall(id, _, _, _, _, _) => id !in w.calls
    case CallStep(id) => id in w.calls
    case Nest(id, inner) => id in w.calls && inner in w.calls && w.calls[id].pc.Entered?
    case Take(worker, _, _, _) => worker !in w.jobs
    case FinishJob(worker, _) => worker in w.jobs && !VersionDiff(w.jobs[worker].version, w.jobs[worker].ranAt)
    case Crash(worker) => worker in w.jobs
    case Other(s) => !s.DoEnqueue? && !s.DoDequeue?
  }

  function StartOf<I, U, E>(d: Site<I, U, E>, handler: string, version: string, input: I, fromCall: bool, requestId: string)
    : Call<I, U, E>
  {
    var c := Call(handler, version, input, fromCall, requestId, "", Begin);
    c.(root := Key(d, c))
  }

  ghost function Do<I, U, E>(d: Site<I, U, E>, w: World<I, U, E>, op: Op<I>, now: int): World<I, U, E>
    requires Enabled(w, op)
  {
    match op
    case NewCall(id, handler, version, input, fromCall, requestId) =>
      w.(calls := w.calls[id := StartOf(d, handler, version, input, fromCall, requestId)])
    case CallStep(id) =>
      var c := w.calls[id];
      var e := Advance(d, w.table, w.results, c, now);
      Keep(w, Key(d, c), e.stored).(table := e.table, calls := w.calls[id := c.(pc := e.pc)])
    case Nest(id, inner) =>
      w.(calls := w.calls[id := w.calls[id].(root := Key(d, w.calls[inner]))])
    case Take(worker, handlers, lease, ranAt) =>
      (match Next(w.table, handlers, now)
       case None => w
       case Some(k) =>
         var r := w.table.rows[k];
         w.(table := Lease(w.table, k, now, lease),
            jobs := w.jobs[worker := Job(k, r.handler, r.version, r.rootId, r.input, ranAt)]))
    case FinishJob(worker, delay) =>
      var j := w.jobs[worker];
      var (t, s) := Complete(d, w.table, j, now, delay);
      Keep(w, j.key, s).(table := t, jobs := w.jobs - {worker})
    case Crash(worker) => w.(jobs := w.jobs - {worker})
    case Other(s) => w.(table := Execute(w.table, s, now))
  }

  datatype Step<I> = Step(op: Op<I>, now: int)

  ghost predicate IsRun<I, U, E>(d: Site<I, U, E>, ws: seq<World<I, U, E>>, steps: seq<Step<I>>) {
    && |ws| == |steps| + 1
    && ws[0] == World(Table(map[], 1), map[], map[], map[], map[])
    && (forall i :: 0 <= i < |steps| && steps[i].op.NewCall? ==> Hashes(d, steps[i].op.handler, d.encIn(steps[i].op.input)))
    && forall i :: 0 <= i < |steps| ==> Enabled(ws[i], steps[i].op) && ws[i + 1] == Do(d, ws[i], steps[i].op, steps[i].now)
  }
}
