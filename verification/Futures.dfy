/**
 A future whose `returns`, `Then`, `Catch` and `Finally` may be called by anyone at any time.
 What happens under the mutex is one step; closing the channel and each call of a callback
 are steps of their own.
 */
module Futures {
  import opened Wrappers

  datatype Outcome<U, E> = Outcome(result: U, err: Option<E>)

  datatype Kind = OnThen | OnCatch | OnFinally

  /** Whether a callback is to be called on an outcome. */
  predicate Wants<U, E>(k: Kind, o: Outcome<U, E>) {
    k == OnFinally || (k == OnThen && o.err.None?) || (k == OnCatch && o.err.Some?)
  }

  /** The fields under the mutex; callbacks are known by number. */
  datatype Fields<U, E> = Fields(kept: Option<Outcome<U, E>>, thenFns: seq<nat>, catchFns: seq<nat>, finallyFns: seq<nat>)

  /** The locked part of `returns`: the fields after it, and the callbacks that are then the caller's to call. */
  function Settle<U, E>(f: Fields<U, E>, o: Outcome<U, E>): (Fields<U, E>, seq<nat>) {
    if f.kept.Some? then (f, [])
    else (f.(kept := Some(o)), (if o.err.None? then f.thenFns else f.catchFns) + f.finallyFns)
  }

  /** The locked part of `Then`, `Catch` and `Finally`: the fields after it, and whether `fn` is started at once. */
  function Register<U, E>(f: Fields<U, E>, k: Kind, fn: nat): (Fields<U, E>, bool) {
    if f.kept.Some? && Wants(k, f.kept.value) then (f, true)
    else
      (match k
       case OnThen => f.(thenFns := f.thenFns + [fn])
       case OnCatch => f.(catchFns := f.catchFns + [fn])
       case OnFinally => f.(finallyFns := f.finallyFns + [fn]), false)
  }

  class Future<U(0), E> {
    var result: U
    var err: Option<E>
    var doneOk: bool
    var thenFns: seq<nat>
    var catchFns: seq<nat>
    var finallyFns: seq<nat>

    ghost function State(): Fields<U, E>
      reads this
    {
      Fields(if doneOk then Some(Outcome(result, err)) else None, thenFns, catchFns, finallyFns)
    }

    constructor ()
      ensures State() == Fields(None, [], [], [])
    {
      result, err, doneOk, thenFns, catchFns, finallyFns := *, None, false, [], [], [];
    }

    method Returns(output: U, e: Option<E>) returns (callbacks: seq<nat>)
      modifies this
      ensures (State(), callbacks) == Settle(old(State()), Outcome(output, e))
    {
      if doneOk {
        return [];
      }
      result := output;
      err := e;
      doneOk := true;
      callbacks := if e.None? then thenFns else catchFns;
      callbacks := callbacks + finallyFns;
    }

    method Then(fn: nat) returns (started: bool)
      modifies this
      ensures (State(), started) == Register(old(State()), OnThen, fn)
    {
      if doneOk && err.None? {
        return true;
      }
      thenFns := thenFns + [fn];
      return false;
    }

    method Catch(fn: nat) returns (started: bool)
      modifies this
      ensures (State(), started) == Register(old(State()), OnCatch, fn)
    {
      if doneOk && err.Some? {
        return true;
      }
      catchFns := catchFns + [fn];
      return false;
    }

    method Finally(fn: nat) returns (started: bool)
      modifies this
      ensures (State(), started) == Register(old(State()), OnFinally, fn)
    {
      if doneOk {
        return true;
      }
      finallyFns := finallyFns + [fn];
      return false;
    }
  }

  // ---------------------------------------------------------------- all interleavings

  /**
   `closed` is the channel; `queue` is what the caller of `returns` that came first still has
   to call; `started` are goroutines that have yet to run.  `kinds` and `calls` are history:
   what was registered, and what each callback was called with.
   */
  datatype World<U, E> = World(
    fields: Fields<U, E>, closed: bool, queue: seq<nat>, started: set<nat>,
    kinds: map<nat, Kind>, calls: map<nat, seq<Outcome<U, E>>>)

  datatype Step<U, E> =
    | Return(outcome: Outcome<U, E>)
    | Close
    | CallNext
    | Add(kind: Kind, fn: nat)
    | RunStarted(fn: nat)

  predicate Enabled<U, E>(w: World<U, E>, s: Step<U, E>) {
    match s
    case Return(_) => true
    case Close => w.fields.kept.Some? && !w.closed
    case CallNext => w.closed && w.queue != []
    case Add(_, fn) => fn !in w.kinds
    case RunStarted(fn) => fn in w.started && w.fields.kept.Some?
  }

  function Called<U, E>(w: World<U, E>, fn: nat): World<U, E>
    requires w.fields.kept.Some?
  {
    w.(calls := w.calls[fn := (if fn in w.calls then w.calls[fn] else []) + [w.fields.kept.value]])
  }

  function Do<U, E>(w: World<U, E>, s: Step<U, E>): World<U, E>
    requires Enabled(w, s) && (w.closed ==> w.fields.kept.Some?)
  {
    match s
    case Return(o) =>
      var (f, callbacks) := Settle(w.fields, o);
      w.(fields := f, queue := w.queue + callbacks)
    case Close => w.(closed := true)
    case CallNext => Called(w, w.queue[0]).(queue := w.queue[1..])
    case Add(k, fn) =>
      var (f, now) := Register(w.fields, k, fn);
      w.(fields := f, started := if now then w.started + {fn} else w.started,
         kinds := w.kinds[fn := k], calls := w.calls[fn := []])
    case RunStarted(fn) => Called(w, fn).(started := w.started - {fn})
  }

  function ListOf<U, E>(f: Fields<U, E>, k: Kind): seq<nat> {
    match k case OnThen => f.thenFns case OnCatch => f.catchFns case OnFinally => f.finallyFns
  }

  predicate Distinct(s: seq<nat>) {
    forall i, j :: 0 <= i < j < |s| ==> s[i] != s[j]
  }

  /** How things stand with one callback: where it is yet to be called from, and what it was called with. */
  ghost predicate Placed<U, E>(w: World<U, E>, fn: nat) {
    && fn in w.kinds && fn in w.calls
    && if w.fields.kept.None? || !Wants(w.kinds[fn], w.fields.kept.value) then
         fn !in w.queue && fn !in w.started && w.calls[fn] == []
       else if fn in w.queue then fn !in w.started && w.calls[fn] == []
       else if fn in w.started then w.calls[fn] == []
       else w.calls[fn] == [w.fields.kept.value]
  }

  ghost predicate Inv<U, E>(w: World<U, E>) {
    && (w.closed ==> w.fields.kept.Some?)
    && (w.fields.kept.None? ==> w.queue == [] && w.started == {})
    && Distinct(w.queue)
    && (forall k :: Distinct(ListOf(w.fields, k)))
    && (forall k, fn :: fn in ListOf(w.fields, k) ==> fn in w.kinds && w.kinds[fn] == k)
    && (w.fields.kept.None? ==> forall fn :: fn in w.kinds ==> fn in ListOf(w.fields, w.kinds[fn]))
    && (forall fn :: fn in w.queue || fn in w.started ==> fn in w.kinds)
    && (forall fn :: fn in w.kinds ==> Placed(w, fn))
  }

  lemma DistinctUnion(a: seq<nat>, b: seq<nat>)
    requires Distinct(a) && Distinct(b) && forall x :: x in a ==> x !in b
    ensures Distinct(a + b)
  {
    forall i, j | 0 <= i < j < |a + b| ensures (a + b)[i] != (a + b)[j] {
      if i < |a| <= j {
        assert (a + b)[i] in a && (a + b)[j] in b;
      }
    }
  }

  /** The callbacks that the first `returns` takes along are those of the outcome's kinds, each once. */
  lemma SettledQueue<U, E>(w: World<U, E>, o: Outcome<U, E>)
    requires Inv(w) && w.fields.kept.None?
    ensures var queue := Settle(w.fields, o).1;
            Distinct(queue) && forall fn :: fn in queue <==> fn in w.kinds && Wants(w.kinds[fn], o)
  {
    var f, first := w.fields, if o.err.None? then OnThen else OnCatch;
    var a, b := ListOf(f, first), ListOf(f, OnFinally);
    var queue := a + b;
    assert Settle(f, o).1 == queue;
    assert Distinct(a) && Distinct(b);
    forall fn | fn in a ensures fn !in b {
      assert w.kinds[fn] == first;
    }
    DistinctUnion(a, b);
    forall fn ensures fn in queue <==> fn in w.kinds && Wants(w.kinds[fn], o) {
      assert fn in queue <==> fn in a || fn in b;
      assert fn in w.kinds ==> fn in ListOf(f, w.kinds[fn]);
    }
  }

  lemma ReturnKeepsInv<U, E>(w: World<U, E>, o: Outcome<U, E>)
    requires Inv(w)
    ensures Inv(Do(w, Return(o)))
  {
    hide Settle, Wants;
    var w' := Do(w, Return(o));
    if w.fields.kept.None? {
      SettledQueue(w, o);
      SettledFields(w.fields, o);
      var queue := Settle(w.fields, o).1;
      assert w' == w.(fields := w.fields.(kept := Some(o)), queue := queue);
      forall fn | fn in w'.kinds ensures Placed(w', fn) {
        assert Placed(w, fn);
      }
      forall k ensures ListOf(w'.fields, k) == ListOf(w.fields, k) {}
    } else {
      SettledTwice(w.fields, o);
      assert w' == w;
    }
  }

  lemma SettledTwice<U, E>(f: Fields<U, E>, o: Outcome<U, E>)
    requires f.kept.Some?
    ensures Settle(f, o) == (f, [])
  {
  }

  lemma SettledFields<U, E>(f: Fields<U, E>, o: Outcome<U, E>)
    requires f.kept.None?
    ensures Settle(f, o).0 == f.(kept := Some(o))
  {
  }

  lemma AddKeepsInv<U, E>(w: World<U, E>, k: Kind, fn: nat)
    requires Inv(w) && Enabled(w, Add(k, fn))
    ensures Inv(Do(w, Add(k, fn)))
  {
    AddKeepsPlaced(w, k, fn);
    AddKeepsLists(w, k, fn);
    RegisteredIs(w.fields, k, fn);
    hide Register, ListOf, Placed, Wants, Distinct;
  }

  lemma AddedTo<U, E>(f: Fields<U, E>, k: Kind, fn: nat, l: Kind)
    ensures var lists' := ListOf(Register(f, k, fn).0, l);
            lists' == ListOf(f, l) || (l == k && lists' == ListOf(f, l) + [fn])
  {
  }

  /** What is registered is in the list of its kind, once. */
  lemma AddKeepsLists<U, E>(w: World<U, E>, k: Kind, fn: nat)
    requires Inv(w) && Enabled(w, Add(k, fn))
    ensures var w' := Do(w, Add(k, fn));
            && (forall l :: Distinct(ListOf(w'.fields, l)))
            && (forall l, g :: g in ListOf(w'.fields, l) ==> g in w'.kinds && w'.kinds[g] == l)
            && (w'.fields.kept.None? ==> forall g :: g in w'.kinds ==> g in ListOf(w'.fields, w'.kinds[g]))
  {
    hide Placed, Wants, Register, ListOf;
    RegisteredIs(w.fields, k, fn);
    var w' := Do(w, Add(k, fn));
    forall l: Kind
      ensures ListOf(w'.fields, l) == ListOf(w.fields, l) || (l == k && ListOf(w'.fields, l) == ListOf(w.fields, l) + [fn])
    {
      AddedTo(w.fields, k, fn, l);
    }
    if w'.fields.kept.None? {
      forall g | g in w'.kinds ensures g in ListOf(w'.fields, w'.kinds[g]) {
        if g != fn {
          assert g in ListOf(w.fields, w.kinds[g]);
        }
      }
    }
  }

  lemma AddKeepsPlaced<U, E>(w: World<U, E>, k: Kind, fn: nat)
    requires Inv(w) && Enabled(w, Add(k, fn))
    ensures var w' := Do(w, Add(k, fn)); forall g :: g in w'.kinds ==> Placed(w', g)
  {
    hide ListOf;
    var w' := Do(w, Add(k, fn));
    forall g | g in w'.kinds ensures Placed(w', g) {
      assert g != fn ==> Placed(w, g);
    }
  }

  lemma RegisteredIs<U, E>(f: Fields<U, E>, k: Kind, fn: nat)
    ensures var (f', now) := Register(f, k, fn);
            && f'.kept == f.kept && (now <==> f.kept.Some? && Wants(k, f.kept.value))
            && (!now ==> ListOf(f', k) == ListOf(f, k) + [fn])
  {
  }

  lemma CallNextKeepsInv<U, E>(w: World<U, E>)
    requires Inv(w) && Enabled(w, CallNext)
    ensures Inv(Do(w, CallNext))
  {
    var w' := Do(w, CallNext);
    forall g | g in w'.kinds ensures Placed(w', g) {
      assert Placed(w, g);
      assert g in w.queue <==> g == w.queue[0] || g in w'.queue;
    }
  }

  lemma RunStartedKeepsInv<U, E>(w: World<U, E>, fn: nat)
    requires Inv(w) && Enabled(w, RunStarted(fn))
    ensures Inv(Do(w, RunStarted(fn)))
  {
    var w' := Do(w, RunStarted(fn));
    forall g | g in w'.kinds ensures Placed(w', g) {
      assert Placed(w, g);
    }
  }

  lemma StepKeepsInv<U, E>(w: World<U, E>, s: Step<U, E>)
    requires Inv(w) && Enabled(w, s)
    ensures Inv(Do(w, s))
    ensures w.fields.kept.Some? ==> Do(w, s).fields.kept == w.fields.kept
    ensures w.fields.kept.None? && s.Return? ==> Do(w, s).fields.kept == Some(s.outcome)
  {
    match s
    case Return(o) => ReturnKeepsInv(w, o);
    case Close =>
      forall g | g in w.kinds ensures Placed(Do(w, s), g) {
        assert Placed(w, g);
      }
    case CallNext => CallNextKeepsInv(w);
    case Add(k, fn) => AddKeepsInv(w, k, fn);
    case RunStarted(fn) => RunStartedKeepsInv(w, fn);
  }

  ghost predicate IsRun<U, E>(ws: seq<World<U, E>>, steps: seq<Step<U, E>>) {
    && |ws| == |steps| + 1
    && ws[0] == World(Fields(None, [], [], []), false, [], {}, map[], map[])
    && forall i :: 0 <= i < |steps| ==>
         Enabled(ws[i], steps[i]) && (ws[i].closed ==> ws[i].fields.kept.Some?) && ws[i + 1] == Do(ws[i], steps[i])
  }

  lemma {:induction false} RunKeepsInv<U, E>(ws: seq<World<U, E>>, steps: seq<Step<U, E>>, i: nat)
    requires IsRun(ws, steps) && i < |ws|
    ensures Inv(ws[i])
  {
    if i > 0 {
      RunKeepsInv(ws, steps, i - 1);
      StepKeepsInv(ws[i - 1], steps[i - 1]);
    }
  }

  /** The result that is kept is the one of the first `returns`. */
  lemma {:induction false} FirstReturnIsKept<U, E>(ws: seq<World<U, E>>, steps: seq<Step<U, E>>, i: nat, j: nat)
    requires IsRun(ws, steps) && i < j < |ws| && steps[i].Return?
    requires forall k :: 0 <= k < i ==> !steps[k].Return?
    ensures ws[j].fields.kept == Some(steps[i].outcome)
  {
    RunKeepsInv(ws, steps, j - 1);
    StepKeepsInv(ws[j - 1], steps[j - 1]);
    if j > i + 1 {
      FirstReturnIsKept(ws, steps, i, j - 1);
    } else {
      NothingKept(ws, steps, i);
    }
  }

  lemma {:induction false} NothingKept<U, E>(ws: seq<World<U, E>>, steps: seq<Step<U, E>>, i: nat)
    requires IsRun(ws, steps) && i < |ws|
    requires forall k :: 0 <= k < i ==> !steps[k].Return?
    ensures ws[i].fields.kept.None?
  {
    if i > 0 {
      NothingKept(ws, steps, i - 1);
    }
  }

  /**
   No callback is ever called twice, or with anything but the kept outcome, or on an outcome it
   is not for; and when nothing is left to run, each callback that the outcome is for was called.
   */
  lemma DeliversExactlyOnce<U, E>(ws: seq<World<U, E>>, steps: seq<Step<U, E>>, i: nat, fn: nat)
    requires IsRun(ws, steps) && i < |ws| && fn in ws[i].kinds
    ensures var w := ws[i];
            && fn in w.calls && |w.calls[fn]| <= 1
            && (w.calls[fn] != [] ==> w.fields.kept == Some(w.calls[fn][0]) && Wants(w.kinds[fn], w.calls[fn][0]))
            && (w.fields.kept.Some? && w.queue == [] && w.started == {} && Wants(w.kinds[fn], w.fields.kept.value)
                ==> w.calls[fn] == [w.fields.kept.value])
  {
    RunKeepsInv(ws, steps, i);
  }

  /** Whoever gets past the closed channel sees the kept outcome. */
  lemma AwaitSeesKept<U, E>(ws: seq<World<U, E>>, steps: seq<Step<U, E>>, i: nat, j: nat)
    requires IsRun(ws, steps) && i < |steps| && j < |ws| && ws[j].closed
    requires steps[i].Return? && forall k :: 0 <= k < i ==> !steps[k].Return?
    ensures ws[j].fields.kept == Some(steps[i].outcome)
  {
    RunKeepsInv(ws, steps, j);
    if j <= i {
      NothingKept(ws, steps, j);
    } else {
      FirstReturnIsKept(ws, steps, i, j);
    }
  }

  // ---------------------------------------------------------------- every callback is called in the end

  function Last<T>(s: seq<T>): T
    requires s != []
  {
    s[|s| - 1]
  }

  lemma OneMore<U, E>(ws: seq<World<U, E>>, steps: seq<Step<U, E>>, s: Step<U, E>)
      returns (ws': seq<World<U, E>>, steps': seq<Step<U, E>>)
    requires IsRun(ws, steps) && Enabled(Last(ws), s)
    ensures IsRun(ws', steps') && ws <= ws' && ws' != []
    ensures (Last(ws).closed ==> Last(ws).fields.kept.Some?) && Last(ws') == Do(Last(ws), s)
  {
    hide Do, Enabled;
    RunKeepsInv(ws, steps, |ws| - 1);
    var w := Last(ws);
    assert w.closed ==> w.fields.kept.Some?;
    ws', steps' := ws + [Do(w, s)], steps + [s];
    forall i | 0 <= i < |steps'|
      ensures Enabled(ws'[i], steps'[i]) && (ws'[i].closed ==> ws'[i].fields.kept.Some?) && ws'[i + 1] == Do(ws'[i], steps'[i])
    {
      if i < |steps| {
        assert ws'[i] == ws[i] && steps'[i] == steps[i] && ws'[i + 1] == ws[i + 1];
      } else {
        assert ws'[i] == w && steps'[i] == s;
      }
    }
  }

  /** Closing, calling the next one and running a started one all lead on, and leave what was registered and kept. */
  lemma LeadsOn<U, E>(w: World<U, E>, s: Step<U, E>)
    requires Inv(w) && Enabled(w, s) && (s.Close? || s.CallNext? || s.RunStarted?)
    ensures var w' := Do(w, s);
            && w'.fields == w.fields && w'.kinds == w.kinds
            && (s.Close? ==> w'.closed && w'.queue == w.queue && w'.started == w.started)
            && (s.CallNext? ==> w'.closed == w.closed && |w'.queue| < |w.queue| && w'.started == w.started)
            && (s.RunStarted? ==> w'.closed == w.closed && w'.queue == w.queue && |w'.started| < |w.started|)
  {
  }

  /** From every state in which an outcome is kept, what is left to do can be done, and then nothing is. */
  lemma {:induction false} ComesToRest<U, E>(ws: seq<World<U, E>>, steps: seq<Step<U, E>>)
      returns (ws': seq<World<U, E>>, steps': seq<Step<U, E>>)
    requires IsRun(ws, steps) && Last(ws).fields.kept.Some?
    ensures IsRun(ws', steps') && ws <= ws' && ws' != []
    ensures Last(ws').closed && Last(ws').queue == [] && Last(ws').started == {}
    ensures Last(ws').kinds == Last(ws).kinds && Last(ws').fields.kept == Last(ws).fields.kept
    decreases (if Last(ws).closed then 0 else 1) + |Last(ws).queue| + |Last(ws).started|
  {
    var w := Last(ws);
    RunKeepsInv(ws, steps, |ws| - 1);
    ws', steps' := ws, steps;
    if !w.closed || w.queue != [] || w.started != {} {
      var s: Step<U, E>;
      if !w.closed {
        s := Close;
      } else if w.queue != [] {
        s := CallNext;
      } else {
        var fn :| fn in w.started;
        s := RunStarted(fn);
      }
      assert Enabled(w, s);
      LeadsOn(w, s);
      hide Do, Inv, IsRun, Enabled;
      ws', steps' := OneMore(ws, steps, s);
      ws', steps' := ComesToRest(ws', steps');
    }
  }

  /** However far a run with a kept outcome has got, it can go on until each callback that the outcome is for was called with it, once. */
  lemma EveryCallbackIsCalled<U, E>(ws: seq<World<U, E>>, steps: seq<Step<U, E>>)
      returns (ws': seq<World<U, E>>, steps': seq<Step<U, E>>)
    requires IsRun(ws, steps) && Last(ws).fields.kept.Some?
    ensures IsRun(ws', steps') && ws <= ws' && ws' != [] && Last(ws').closed
    ensures var w, w' := Last(ws), Last(ws');
            && w'.kinds == w.kinds
            && (forall fn :: fn in w.kinds ==> fn in w'.calls)
            && forall fn :: fn in w.kinds ==>
                 w'.calls[fn] == if Wants(w.kinds[fn], w.fields.kept.value) then [w.fields.kept.value] else []
  {
    ws', steps' := ComesToRest(ws, steps);
    var w' := Last(ws');
    forall fn | fn in w'.kinds
      ensures fn in w'.calls && w'.calls[fn] == if Wants(w'.kinds[fn], w'.fields.kept.value) then [w'.fields.kept.value] else []
    {
      DeliversExactlyOnce(ws', steps', |ws'| - 1, fn);
    }
  }
}
