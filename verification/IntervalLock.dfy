/**
 The worker's dequeue loop and the lock that keeps a handler with an interval from being
 dequeued again while a job of it is under way.  The loop is one goroutine; the jobs it hands
 out run on others, and end there or on the timing wheel.  Each use of a mutex-protected set,
 each atomic addition and each call into the store is a step of its own.
 */
module IntervalLock {
  // ---------------------------------------------------------------- the sets

  /** The elements of a set in some order, each once. */
  ghost predicate Lists(s: seq<string>, m: set<string>) {
    && (forall x :: x in s <==> x in m)
    && forall i, j :: 0 <= i < j < |s| ==> s[i] != s[j]
  }

  class JobSet {
    var m: set<string>

    constructor ()
      ensures m == {}
    {
      m := {};
    }

    method Add(v: string)
      modifies this
      ensures m == old(m) + {v}
    {
      m := m + {v};
    }

    method Remove(v: string)
      modifies this
      ensures m == old(m) - {v}
    {
      m := m - {v};
    }

    method Slice() returns (r: seq<string>)
      ensures Lists(r, m)
    {
      r := [];
      var rest := m;
      while rest != {}
        invariant rest <= m && Lists(r, m - rest)
        decreases |rest|
      {
        var k :| k in rest;
        assert m - (rest - {k}) == m - rest + {k};
        r, rest := r + [k], rest - {k};
      }
    }

    /** What is in this set and in none of the others. */
    ghost function Without(others: seq<JobSet>): set<string>
      reads this, others
    {
      set v | v in m && forall o <- others :: v !in o.m
    }

    method Diff(others: seq<JobSet>) returns (r: seq<string>)
      ensures Lists(r, Without(others))
    {
      var c := 0;
      for i := 0 to |others|
        invariant c >= 0 && (c == 0 <==> forall j :: 0 <= j < i ==> others[j].m == {})
      {
        c := c + |others[i].m|;
      }
      if c == 0 {
        assert m == Without(others);
        r := Slice();
        return;
      }
      r := [];
      var rest := m;
      while rest != {}
        invariant rest <= m && Lists(r, Without(others) - rest)
        decreases |rest|
      {
        var k :| k in rest;
        var contains := false;
        for i := 0 to |others|
          invariant !contains && forall j :: 0 <= j < i ==> k !in others[j].m
        {
          if k in others[i].m {
            contains := true;
            break;
          }
        }
        assert contains <==> k !in Without(others);
        ghost var w := Without(others);
        assert w - (rest - {k}) == if contains then w - rest else w - rest + {k};
        if !contains {
          r := r + [k];
        }
        rest := rest - {k};
      }
      assert Without(others) - rest == Without(others);
    }
  }

  // ---------------------------------------------------------------- all interleavings

  /** Where the loop is; the two sets of locks are read one handler at a time, between other steps. */
  datatype Loop =
    | Polling
    | Counted(total: nat)
    | Diffing(todo: seq<string>, free: seq<string>, passed: bool)
    | Asking(handlers: seq<string>)
    | Got(exec: nat)
    | Handing(exec: nat)

  /**
   One dequeued job: with the loop, with a worker, put off on the wheel, running, with its
   outcome in the store, and then the two things that are left to do in one order or the other.
   */
  datatype Stage = Held | Taken | Scheduled | Running(now: bool) | Settled(now: bool) | Inactive | Unlocked | Over

  datatype Exec = Exec(handler: string, stage: Stage)

  datatype World = World(loop: Loop, execs: map<nat, Exec>, handlers: set<string>, locked: set<string>, resources: set<string>, active: int)

  datatype Step =
    | CountLocked
    | CountResources(order: seq<string>)
    | TestLocked
    | TestResources
    | NotFound
    | Found(exec: nat, handler: string)
    | Lock
    | Take
    | Begin(exec: nat, later: bool)
    | Fire(exec: nat)
    | Settle(exec: nat)
    | Deactivate(exec: nat)
    | Unlock(exec: nat)
    | SetResources(resources: set<string>)

  predicate At(w: World, e: nat, stage: Stage) {
    e in w.execs && w.execs[e].stage == stage
  }

  /** `spaced` are the handlers with an interval. */
  ghost predicate Enabled(w: World, s: Step, spaced: set<string>) {
    match s
    case CountLocked => w.loop.Polling?
    case CountResources(order) => w.loop.Counted? && Lists(order, w.handlers)
    case TestLocked => w.loop.Diffing? && w.loop.todo != [] && !w.loop.passed
    case TestResources => w.loop.Diffing? && w.loop.todo != [] && w.loop.passed
    case NotFound => w.loop.Asking? || (w.loop.Diffing? && w.loop.todo == [])
    case Found(e, h) =>
      e !in w.execs && ((w.loop.Asking? && h in w.loop.handlers) || (w.loop.Diffing? && w.loop.todo == [] && h in w.loop.free))
    case Lock => w.loop.Got? && w.loop.exec in w.execs
    case Take => w.loop.Handing? && w.loop.exec in w.execs
    case Begin(e, later) => At(w, e, Taken) && (later ==> w.execs[e].handler in spaced)
    case Fire(e) => At(w, e, Scheduled)
    case Settle(e) => At(w, e, Running(true)) || At(w, e, Running(false))
    case Deactivate(e) => At(w, e, Settled(true)) || At(w, e, Unlocked)
    case Unlock(e) => At(w, e, Settled(false)) || At(w, e, Inactive)
    case SetResources(_) => true
  }

  function Moved(w: World, e: nat, stage: Stage): World
    requires e in w.execs
  {
    w.(execs := w.execs[e := w.execs[e].(stage := stage)])
  }

  ghost function Do(w: World, s: Step, spaced: set<string>): World
    requires Enabled(w, s, spaced)
  {
    match s
    case CountLocked => w.(loop := Counted(|w.locked|))
    case CountResources(order) =>
      w.(loop := if w.loop.total + |w.resources| == 0 then Asking(order) else Diffing(order, [], false))
    case TestLocked =>
      var l := w.loop;
      w.(loop := if l.todo[0] in w.locked then Diffing(l.todo[1..], l.free, false) else l.(passed := true))
    case TestResources =>
      var l := w.loop;
      w.(loop := Diffing(l.todo[1..], if l.todo[0] in w.resources then l.free else l.free + [l.todo[0]], false))
    case NotFound => w.(loop := Polling)
    case Found(e, h) => w.(loop := Got(e), execs := w.execs[e := Exec(h, Held)])
    case Lock =>
      var h := w.execs[w.loop.exec].handler;
      w.(loop := Handing(w.loop.exec), locked := if h in spaced then w.locked + {h} else w.locked)
    case Take => Moved(w, w.loop.exec, Taken).(loop := Polling)
    case Begin(e, later) => Moved(w, e, if later then Scheduled else Running(true)).(active := w.active + 1)
    case Fire(e) => Moved(w, e, Running(false))
    case Settle(e) => Moved(w, e, Settled(w.execs[e].stage.now))
    case Deactivate(e) =>
      Moved(w, e, if w.execs[e].stage == Unlocked then Over else Inactive).(active := w.active - 1)
    case Unlock(e) =>
      Moved(w, e, if w.execs[e].stage == Inactive then Over else Unlocked).(locked := w.locked - {w.execs[e].handler})
    case SetResources(r) => w.(resources := r)
  }

  /** Dequeued, and its outcome not yet in the store. */
  predicate Unfinished(w: World, e: nat) {
    e in w.execs && (w.execs[e].stage in {Held, Taken, Scheduled} || w.execs[e].stage.Running?)
  }

  /** Dequeued, and its handler not yet unlocked. */
  predicate Occupies(w: World, e: nat, h: string) {
    e in w.execs && w.execs[e].handler == h && !w.execs[e].stage.Unlocked? && !w.execs[e].stage.Over?
  }

  /** Between the two atomic additions. */
  predicate InBody(stage: Stage) {
    stage.Scheduled? || stage.Running? || stage.Settled? || stage.Unlocked?
  }

  ghost function Bodies(w: World): set<nat> {
    set e | e in w.execs && InBody(w.execs[e].stage)
  }

  /** The handlers that the loop has found not to be locked, since it last began. */
  ghost predicate Cleared(l: Loop, h: string) {
    match l
    case Counted(total) => total == 0
    case Diffing(todo, free, passed) => h in free || (passed && todo != [] && h == todo[0])
    case Asking(handlers) => h in handlers
    case _ => false
  }

  ghost predicate Exclusive(w: World, h: string) {
    forall e, f :: Occupies(w, e, h) && Occupies(w, f, h) ==> e == f
  }

  ghost predicate Inv(w: World, spaced: set<string>) {
    && (w.loop.Got? || w.loop.Handing? ==> At(w, w.loop.exec, Held))
    && (forall e :: At(w, e, Held) ==> (w.loop.Got? || w.loop.Handing?) && w.loop.exec == e)
    && (forall h <- spaced :: Exclusive(w, h))
    && (forall e, h :: Occupies(w, e, h) && h in spaced ==> h in w.locked || w.loop == Got(e))
    && (forall h <- w.locked :: h in spaced && exists e :: Occupies(w, e, h) && w.loop != Got(e))
    && (forall h :: Cleared(w.loop, h) ==> h !in w.locked)
    && w.active == |Bodies(w)|
  }

  // ---------------------------------------------------------------- what every step keeps

  lemma StepBodies(w: World, s: Step, spaced: set<string>, f: nat)
    requires Enabled(w, s, spaced) && (w.loop.Handing? ==> At(w, w.loop.exec, Held))
    ensures f in Bodies(Do(w, s, spaced)) <==>
            (f in Bodies(w) && !(s.Deactivate? && s.exec == f)) || (s.Begin? && s.exec == f)
    ensures s.Begin? ==> s.exec !in Bodies(w)
    ensures s.Deactivate? ==> s.exec in Bodies(w)
  {
  }

  lemma StepCountsBodies(w: World, s: Step, spaced: set<string>)
    requires w.active == |Bodies(w)| && Enabled(w, s, spaced) && (w.loop.Handing? ==> At(w, w.loop.exec, Held))
    ensures Do(w, s, spaced).active == |Bodies(Do(w, s, spaced))|
  {
    hide Bodies, Enabled, At;
    var now := Bodies(Do(w, s, spaced));
    forall f: nat
      ensures f in now <==> (f in Bodies(w) && !(s.Deactivate? && s.exec == f)) || (s.Begin? && s.exec == f)
      ensures s.Begin? ==> s.exec !in Bodies(w)
      ensures s.Deactivate? ==> s.exec in Bodies(w)
    {
      StepBodies(w, s, spaced, f);
    }
    assert now == if s.Begin? then Bodies(w) + {s.exec} else if s.Deactivate? then Bodies(w) - {s.exec} else Bodies(w);
  }

  /** The loop's own record of what is free stays true: only the loop itself locks handlers. */
  lemma StepKeepsCleared(w: World, s: Step, spaced: set<string>, h: string)
    requires Enabled(w, s, spaced) && forall g :: Cleared(w.loop, g) ==> g !in w.locked
    ensures Cleared(Do(w, s, spaced).loop, h) ==> h !in Do(w, s, spaced).locked
  {
    var w' := Do(w, s, spaced);
    assert s.CountLocked? && Cleared(w'.loop, h) ==> w.locked == {};
    assert Cleared(w'.loop, h) && w'.loop != w.loop && !s.CountLocked? && !s.TestLocked? ==> Cleared(w.loop, h);
  }

  /** A job is under way as before, or it is the one just found, or it has just been unlocked. */
  lemma StepOccupies(w: World, s: Step, spaced: set<string>, e: nat, h: string)
    requires Inv(w, spaced) && Enabled(w, s, spaced)
    ensures Occupies(Do(w, s, spaced), e, h) <==>
            (Occupies(w, e, h) && s != Unlock(e)) || s == Found(e, h)
  {
  }

  lemma StepKeepsHeld(w: World, s: Step, spaced: set<string>)
    requires Inv(w, spaced) && Enabled(w, s, spaced)
    ensures var l := Do(w, s, spaced).loop;
            && (l.Got? || l.Handing? ==> At(Do(w, s, spaced), l.exec, Held))
            && forall e :: At(Do(w, s, spaced), e, Held) ==> (l.Got? || l.Handing?) && l.exec == e
  {
    var w' := Do(w, s, spaced);
    forall e | At(w', e, Held) ensures (w'.loop.Got? || w'.loop.Handing?) && w'.loop.exec == e {
      assert At(w, e, Held) || s.Found?;
    }
  }

  /** What the loop dequeues next has no other job under way. */
  lemma FoundIsFree(w: World, spaced: set<string>, e: nat, h: string, f: nat)
    requires Inv(w, spaced) && Enabled(w, Found(e, h), spaced) && h in spaced
    ensures !Occupies(w, f, h)
  {
    assert Cleared(w.loop, h);
  }

  lemma StepKeepsExclusive(w: World, s: Step, spaced: set<string>, h: string)
    requires Inv(w, spaced) && Enabled(w, s, spaced) && h in spaced
    ensures Exclusive(Do(w, s, spaced), h)
  {
    hide Do, Inv, Occupies, Enabled;
    var w' := Do(w, s, spaced);
    assert Exclusive(w, h) by { ExclusiveNow(w, spaced, h); }
    forall e, f | Occupies(w', e, h) && Occupies(w', f, h) ensures e == f {
      StepOccupies(w, s, spaced, e, h);
      StepOccupies(w, s, spaced, f, h);
      if s == Found(e, h) {
        FoundIsFree(w, spaced, e, h, f);
      } else if s == Found(f, h) {
        FoundIsFree(w, spaced, f, h, e);
      }
    }
  }

  lemma ExclusiveNow(w: World, spaced: set<string>, h: string)
    requires Inv(w, spaced) && h in spaced
    ensures Exclusive(w, h)
  {
  }

  lemma StepKeepsLocked(w: World, s: Step, spaced: set<string>, e: nat, h: string)
    requires Inv(w, spaced) && Enabled(w, s, spaced) && h in spaced && Occupies(Do(w, s, spaced), e, h)
    ensures h in Do(w, s, spaced).locked || Do(w, s, spaced).loop == Got(e)
  {
    StepOccupies(w, s, spaced, e, h);
    if s.Unlock? && w.execs[s.exec].handler == h {
      assert Occupies(w, s.exec, h);
      ExclusiveNow(w, spaced, h);
      assert false;
    }
  }

  /** No lock is left behind: what is locked has a job under way that will unlock it. */
  lemma StepKeepsOwned(w: World, s: Step, spaced: set<string>, h: string) returns (e: nat)
    requires Inv(w, spaced) && Enabled(w, s, spaced) && h in Do(w, s, spaced).locked
    ensures h in spaced && Occupies(Do(w, s, spaced), e, h) && Do(w, s, spaced).loop != Got(e)
  {
    if s.Lock? && w.execs[w.loop.exec].handler == h {
      e := w.loop.exec;
      assert At(w, e, Held);
    } else {
      assert h in w.locked;
      e :| Occupies(w, e, h) && w.loop != Got(e);
    }
    StepOccupies(w, s, spaced, e, h);
  }

  lemma StepKeepsInv(w: World, s: Step, spaced: set<string>)
    requires Inv(w, spaced) && Enabled(w, s, spaced)
    ensures Inv(Do(w, s, spaced), spaced)
  {
    hide Do, Occupies, Enabled, Exclusive, Cleared, At, Bodies;
    var w' := Do(w, s, spaced);
    StepKeepsHeld(w, s, spaced);
    StepCountsBodies(w, s, spaced);
    forall h | h in spaced ensures Exclusive(w', h) {
      StepKeepsExclusive(w, s, spaced, h);
    }
    forall e, h | Occupies(w', e, h) && h in spaced ensures h in w'.locked || w'.loop == Got(e) {
      StepKeepsLocked(w, s, spaced, e, h);
    }
    forall h | h in w'.locked ensures h in spaced && exists e :: Occupies(w', e, h) && w'.loop != Got(e) {
      var e := StepKeepsOwned(w, s, spaced, h);
    }
    forall h | Cleared(w'.loop, h) ensures h !in w'.locked {
      StepKeepsCleared(w, s, spaced, h);
    }
  }

  // ---------------------------------------------------------------- over every run

  ghost predicate IsRun(ws: seq<World>, steps: seq<Step>, spaced: set<string>) {
    && |ws| == |steps| + 1
    && ws[0] == World(Polling, map[], ws[0].handlers, {}, ws[0].resources, 0)
    && forall i :: 0 <= i < |steps| ==> Enabled(ws[i], steps[i], spaced) && ws[i + 1] == Do(ws[i], steps[i], spaced)
  }

  lemma {:induction false} RunKeepsInv(ws: seq<World>, steps: seq<Step>, spaced: set<string>, i: nat)
    requires IsRun(ws, steps, spaced) && i < |ws|
    ensures Inv(ws[i], spaced)
  {
    if i > 0 {
      RunKeepsInv(ws, steps, spaced, i - 1);
      StepKeepsInv(ws[i - 1], steps[i - 1], spaced);
    } else {
      assert Bodies(ws[0]) == {};
    }
  }

  /** A handler with an interval never has two jobs dequeued and not yet finished. */
  lemma OneAtATime(ws: seq<World>, steps: seq<Step>, spaced: set<string>, i: nat, e: nat, f: nat)
    requires IsRun(ws, steps, spaced) && i < |ws|
    requires Unfinished(ws[i], e) && Unfinished(ws[i], f)
    requires ws[i].execs[e].handler == ws[i].execs[f].handler && ws[i].execs[e].handler in spaced
    ensures e == f
  {
    RunKeepsInv(ws, steps, spaced, i);
    var h := ws[i].execs[e].handler;
    assert Exclusive(ws[i], h) && Occupies(ws[i], e, h) && Occupies(ws[i], f, h);
  }

  /**
   Whenever the loop is choosing what to ask for, a handler with an interval is locked exactly
   when a job of it is under way, and then it is not among those that will be asked for.
   */
  lemma LockedExactlyWhileUnderWay(ws: seq<World>, steps: seq<Step>, spaced: set<string>, i: nat, h: string)
    requires IsRun(ws, steps, spaced) && i < |ws| && !ws[i].loop.Got? && h in spaced
    ensures h in ws[i].locked <==> exists e :: Occupies(ws[i], e, h)
    ensures h in ws[i].locked ==> !Cleared(ws[i].loop, h)
    ensures (exists e :: Unfinished(ws[i], e) && ws[i].execs[e].handler == h) ==> h in ws[i].locked
  {
    RunKeepsInv(ws, steps, spaced, i);
    forall e | Unfinished(ws[i], e) && ws[i].execs[e].handler == h ensures Occupies(ws[i], e, h) {}
  }

  /** The counter that decides whether the worker is idle counts the jobs that are in their bodies, and is never negative. */
  lemma ActiveIsExact(ws: seq<World>, steps: seq<Step>, spaced: set<string>, i: nat)
    requires IsRun(ws, steps, spaced) && i < |ws|
    ensures ws[i].active == |Bodies(ws[i])| >= 0
    ensures ws[i].active == 0 <==> forall e :: e in ws[i].execs ==> !InBody(ws[i].execs[e].stage)
  {
    RunKeepsInv(ws, steps, spaced, i);
    if ws[i].active == 0 {
      forall e | e in ws[i].execs ensures !InBody(ws[i].execs[e].stage) {
        assert Bodies(ws[i]) == {};
        assert e !in Bodies(ws[i]);
      }
    } else {
      assert Bodies(ws[i]) != {};
      var e :| e in Bodies(ws[i]);
    }
  }

  // ---------------------------------------------------------------- what the loop asks for

  /** The loop has found `h` free, or is asking for it. */
  predicate Offers(l: Loop, h: string) {
    (l.Diffing? && h in l.free) || (l.Asking? && h in l.handlers)
  }

  predicate Choosing(l: Loop) {
    l.Counted? || l.Diffing? || l.Asking?
  }

  /** The loop has been choosing from world `j` to world `i`. */
  ghost predicate SamePoll(ws: seq<World>, j: nat, i: nat) {
    j <= i < |ws| && forall m :: j <= m <= i ==> Choosing(ws[m].loop)
  }

  /** What is left to test is tested once, and is not offered yet; nothing else than handlers is either. */
  ghost predicate TodoOk(w: World) {
    && (forall h :: Offers(w.loop, h) || (w.loop.Diffing? && h in w.loop.todo) ==> h in w.handlers)
    && (w.loop.Diffing? ==>
      && (forall a, b :: 0 <= a < b < |w.loop.todo| ==> w.loop.todo[a] != w.loop.todo[b])
      && (forall h :: h in w.loop.todo ==> h !in w.loop.free)
      && (w.loop.passed ==> w.loop.todo != []))
  }

  lemma StepKeepsTodo(w: World, s: Step, spaced: set<string>)
    requires TodoOk(w) && Enabled(w, s, spaced)
    ensures TodoOk(Do(w, s, spaced)) && Do(w, s, spaced).handlers == w.handlers
  {
    if s.TestLocked? || s.TestResources? {
      var todo := w.loop.todo;
      assert todo == [todo[0]] + todo[1..];
      assert todo[0] !in todo[1..];
    }
  }

  lemma {:induction false} RunKeepsTodo(ws: seq<World>, steps: seq<Step>, spaced: set<string>, i: nat)
    requires IsRun(ws, steps, spaced) && i < |ws|
    ensures TodoOk(ws[i]) && ws[i].handlers == ws[0].handlers
  {
    hide Do, Enabled, TodoOk;
    if i > 0 {
      RunKeepsTodo(ws, steps, spaced, i - 1);
      StepKeepsTodo(ws[i - 1], steps[i - 1], spaced);
    } else {
      FirstTodo(ws, steps, spaced);
    }
  }

  lemma FirstTodo(ws: seq<World>, steps: seq<Step>, spaced: set<string>)
    requires IsRun(ws, steps, spaced)
    ensures TodoOk(ws[0])
  {
  }

  /** What one step does to the verdict on handler `h`. */
  lemma StepVerdict(w: World, s: Step, spaced: set<string>, h: string)
    requires Inv(w, spaced) && TodoOk(w) && Enabled(w, s, spaced) && h in w.handlers
    requires var l := Do(w, s, spaced).loop; (l.Diffing? && h !in l.todo) || l.Asking?
    ensures Choosing(w.loop)
    ensures var l := Do(w, s, spaced).loop;
            || ((w.loop.Asking? || (w.loop.Diffing? && h !in w.loop.todo)) && (Offers(l, h) <==> Offers(w.loop, h)))
            || (Offers(l, h) <==> h !in w.locked && h !in w.resources)
  {
    if s.CountResources? {
      assert Cleared(w.loop, h) <==> w.loop.total == 0;
      assert |w.resources| == 0 ==> w.resources == {};
    } else if s.TestLocked? || s.TestResources? {
      assert w.loop.todo == [w.loop.todo[0]] + w.loop.todo[1..];
      assert s.TestResources? ==> Cleared(w.loop, w.loop.todo[0]);
    }
  }

  /**
   Each handler that is no longer waiting to be tested was judged at one moment of this poll: it is
   offered if and only if it was then in neither set, of those locked for their interval and of those
   locked for lack of resources.
   */
  lemma {:induction false} JudgedAtOneMoment(ws: seq<World>, steps: seq<Step>, spaced: set<string>, i: nat, h: string) returns (j: nat)
    requires IsRun(ws, steps, spaced) && i < |ws| && h in ws[0].handlers
    requires (ws[i].loop.Diffing? && h !in ws[i].loop.todo) || ws[i].loop.Asking?
    ensures j < i && SamePoll(ws, j, i)
    ensures Offers(ws[i].loop, h) <==> h !in ws[j].locked && h !in ws[j].resources
  {
    hide Do, Enabled, Inv, TodoOk, Offers;
    var w := ws[i - 1];
    RunKeepsInv(ws, steps, spaced, i - 1);
    RunKeepsTodo(ws, steps, spaced, i - 1);
    StepVerdict(w, steps[i - 1], spaced, h);
    if Offers(ws[i].loop, h) <==> h !in w.locked && h !in w.resources {
      j := i - 1;
    } else {
      j := JudgedAtOneMoment(ws, steps, spaced, i - 1, h);
    }
  }

  /** The loop never asks for anything but the handlers of this node. */
  lemma OffersHandlersOnly(ws: seq<World>, steps: seq<Step>, spaced: set<string>, i: nat, h: string)
    requires IsRun(ws, steps, spaced) && i < |ws| && Offers(ws[i].loop, h)
    ensures h in ws[0].handlers
  {
    RunKeepsTodo(ws, steps, spaced, i);
  }

  // ---------------------------------------------------------------- what a job goes through

  /** A job that comes too early after the last one is put off: it does not run before the wheel fires it. */
  lemma {:induction false} PutOffUntilFired(ws: seq<World>, steps: seq<Step>, spaced: set<string>, i: nat, j: nat, e: nat)
    requires IsRun(ws, steps, spaced) && i < j < |ws| && steps[i] == Begin(e, true)
    requires forall m :: i < m < j ==> steps[m] != Fire(e)
    ensures At(ws[j], e, Scheduled)
  {
    if i + 1 < j {
      PutOffUntilFired(ws, steps, spaced, i, j - 1, e);
      RunKeepsInv(ws, steps, spaced, j - 1);
      ScheduledWaits(ws[j - 1], steps[j - 1], spaced, e);
    }
  }

  lemma ScheduledWaits(w: World, s: Step, spaced: set<string>, e: nat)
    requires Enabled(w, s, spaced) && At(w, e, Scheduled) && (w.loop.Handing? ==> At(w, w.loop.exec, Held))
    ensures At(Do(w, s, spaced), e, Scheduled) <==> s != Fire(e)
    ensures s == Fire(e) ==> At(Do(w, s, spaced), e, Running(false))
  {
  }

  /**
   While the counter says that nothing is active, the only jobs that still lock a handler are those
   that no worker has begun, and those that ran at once and are about to unlock.
   */
  lemma IdleLocks(ws: seq<World>, steps: seq<Step>, spaced: set<string>, i: nat, e: nat, h: string)
    requires IsRun(ws, steps, spaced) && i < |ws| && ws[i].active == 0 && Occupies(ws[i], e, h)
    ensures At(ws[i], e, Held) || At(ws[i], e, Taken) || At(ws[i], e, Inactive)
  {
    ActiveIsExact(ws, steps, spaced, i);
  }

  /** A job that was put off unlocks its handler before the counter goes down, one that ran at once after it. */
  lemma UnlocksInTurn(w: World, s: Step, spaced: set<string>, e: nat, now: bool)
    requires Enabled(w, s, spaced) && At(w, e, Settled(now)) && (s == Unlock(e) || s == Deactivate(e))
    ensures s == if now then Deactivate(e) else Unlock(e)
    ensures var w' := Do(w, s, spaced);
            if now then At(w', e, Inactive) && w'.active == w.active - 1 && w'.locked == w.locked
            else At(w', e, Unlocked) && w'.active == w.active && w'.locked == w.locked - {w.execs[e].handler}
  {
  }

  /** Only jobs of handlers with an interval are ever put off. */
  lemma {:induction false} OnlySpacedArePutOff(ws: seq<World>, steps: seq<Step>, spaced: set<string>, i: nat, e: nat)
    requires IsRun(ws, steps, spaced) && i < |ws| && At(ws[i], e, Scheduled)
    ensures ws[i].execs[e].handler in spaced
  {
    hide Do, Enabled;
    SomethingWasDone(ws, steps, spaced, i, e);
    PutOffNow(ws[i - 1], steps[i - 1], spaced, e);
    if At(ws[i - 1], e, Scheduled) {
      OnlySpacedArePutOff(ws, steps, spaced, i - 1, e);
    }
  }

  lemma SomethingWasDone(ws: seq<World>, steps: seq<Step>, spaced: set<string>, i: nat, e: nat)
    requires IsRun(ws, steps, spaced) && i < |ws| && e in ws[i].execs
    ensures i > 0
  {
  }

  lemma PutOffNow(w: World, s: Step, spaced: set<string>, e: nat)
    requires Enabled(w, s, spaced) && At(Do(w, s, spaced), e, Scheduled)
    ensures var h := Do(w, s, spaced).execs[e].handler;
            (At(w, e, Scheduled) && w.execs[e].handler == h) || (s == Begin(e, true) && h in spaced)
  {
  }

  // ---------------------------------------------------------------- nothing gets stuck

  /** How far a job is from its end. */
  function StepsLeft(stage: Stage): nat {
    match stage
    case Held => 7
    case Taken => 6
    case Scheduled => 5
    case Running(_) => 4
    case Settled(_) => 3
    case Inactive => 1
    case Unlocked => 1
    case Over => 0
  }

  /** A job that a worker has can always go on towards its end. */
  lemma JobsGoOn(w: World, spaced: set<string>, e: nat) returns (s: Step)
    requires e in w.execs && !w.execs[e].stage.Held? && !w.execs[e].stage.Over?
    ensures Enabled(w, s, spaced) && e in Do(w, s, spaced).execs
    ensures StepsLeft(Do(w, s, spaced).execs[e].stage) < StepsLeft(w.execs[e].stage)
    ensures forall f :: f in w.execs && f != e ==> f in Do(w, s, spaced).execs && Do(w, s, spaced).execs[f] == w.execs[f]
  {
    match w.execs[e].stage
    case Taken => s := Begin(e, false);
    case Scheduled => s := Fire(e);
    case Running(_) => s := Settle(e);
    case Settled(now) => s := if now then Deactivate(e) else Unlock(e);
    case Inactive => s := Unlock(e);
    case Unlocked => s := Deactivate(e);
  }

  lemma {:induction false} SomeOrder(m: set<string>) returns (order: seq<string>)
    ensures Lists(order, m)
    decreases |m|
  {
    if m == {} {
      order := [];
    } else {
      var x :| x in m;
      var rest := SomeOrder(m - {x});
      order := [x] + rest;
      assert forall y :: y in order <==> y == x || y in rest;
    }
  }

  function Phase(l: Loop): nat {
    match l
    case Polling => 0
    case Counted(_) => 3
    case Diffing(_, _, _) => 2
    case Asking(_) => 1
    case Got(_) => 2
    case Handing(_) => 1
  }

  function TestsLeft(l: Loop): int {
    if l.Diffing? then 2 * |l.todo| - (if l.passed then 1 else 0) else 0
  }

  /** The loop can always go on until it polls again. */
  lemma LoopGoesOn(w: World, spaced: set<string>) returns (s: Step)
    requires Inv(w, spaced) && !w.loop.Polling?
    ensures Enabled(w, s, spaced)
    ensures var l := Do(w, s, spaced).loop;
            Phase(l) < Phase(w.loop) || (Phase(l) == Phase(w.loop) && TestsLeft(l) < TestsLeft(w.loop))
  {
    match w.loop
    case Counted(_) =>
      var order := SomeOrder(w.handlers);
      s := CountResources(order);
    case Diffing(todo, free, passed) =>
      s := if todo == [] then NotFound else if passed then TestResources else TestLocked;
    case Asking(_) => s := NotFound;
    case Got(_) => s := Lock;
    case Handing(_) => s := Take;
  }

  /** Sessions that start and end change the locks for lack of resources at any time, and nothing else here. */
  lemma ResourcesChange(w: World, spaced: set<string>, resources: set<string>)
    ensures Do(w, SetResources(resources), spaced) == w.(resources := resources)
  {
  }
}
