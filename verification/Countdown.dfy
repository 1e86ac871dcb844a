/**
 The naive timer: a list of tasks with the number of ticks each still waits.  It is what the
 timing wheel refines.  A canceled task leaves only when the wheel next visits its slot, that
 is when its count is a multiple of the number of slots `n`.
 */
module Countdown {
  import opened Modular

  function TickPending<K>(pending: map<K, nat>, canceled: set<K>, n: nat): map<K, nat>
    requires n > 0
  {
    map k | k in pending && pending[k] != 0 && !(k in canceled && pending[k] % n == 0) :: pending[k] - 1
  }

  /** What a tick runs. */
  function Due<K>(pending: map<K, nat>, canceled: set<K>): set<K> {
    set k | k in pending && pending[k] == 0 && k !in canceled
  }

  datatype Event<K> = Tick | Add(task: K, ticks: nat) | Cancel(task: K)

  datatype State<K> = State(pending: map<K, nat>, canceled: set<K>)

  function Step<K>(s: State<K>, e: Event<K>, n: nat): State<K>
    requires n > 0
  {
    match e
    case Tick => s.(pending := TickPending(s.pending, s.canceled, n))
    case Add(k, ticks) => s.(pending := s.pending[k := ticks])
    case Cancel(k) => s.(canceled := s.canceled + {k})
  }

  /** The state after the first `i` events. */
  function At<K>(s: State<K>, es: seq<Event<K>>, n: nat, i: nat): State<K>
    requires n > 0 && i <= |es|
  {
    if i == 0 then s else Step(At(s, es, n, i - 1), es[i - 1], n)
  }

  function TicksBefore<K>(es: seq<Event<K>>, i: nat): nat
    requires i <= |es|
  {
    if i == 0 then 0 else TicksBefore(es, i - 1) + if es[i - 1].Tick? then 1 else 0
  }

  /** Whether event `i` is a tick that runs `k`. */
  predicate RunsAt<K(==)>(s: State<K>, es: seq<Event<K>>, n: nat, i: nat, k: K)
    requires n > 0 && i < |es|
  {
    es[i].Tick? && k in Due(At(s, es, n, i).pending, At(s, es, n, i).canceled)
  }

  /** `k` is pending with `ticks` to go, is not canceled, and is not added again. */
  predicate Armed<K(==)>(s: State<K>, es: seq<Event<K>>, k: K, ticks: nat) {
    && k in s.pending && s.pending[k] == ticks && k !in s.canceled
    && forall i :: 0 <= i < |es| && es[i].Add? ==> es[i].task != k
  }

  lemma {:induction false} CountsDown<K>(s: State<K>, es: seq<Event<K>>, n: nat, k: K, ticks: nat, i: nat)
    requires n > 0 && i <= |es| && Armed(s, es, k, ticks)
    requires forall j :: 0 <= j < i && TicksBefore(es, j) <= ticks ==> es[j] != Cancel(k)
    ensures var t := At(s, es, n, i);
            if TicksBefore(es, i) <= ticks
            then k in t.pending && t.pending[k] == ticks - TicksBefore(es, i) && k !in t.canceled
            else k !in t.pending
  {
    if i > 0 {
      CountsDown(s, es, n, k, ticks, i - 1);
    }
  }

  /** A task that is not canceled in time runs exactly once, on the (ticks + 1)-th later tick. */
  lemma RunsExactlyOnce<K>(s: State<K>, es: seq<Event<K>>, n: nat, k: K, ticks: nat, i: nat)
    requires n > 0 && i < |es| && Armed(s, es, k, ticks)
    requires forall j :: 0 <= j < i && TicksBefore(es, j) <= ticks ==> es[j] != Cancel(k)
    ensures RunsAt(s, es, n, i, k) <==> es[i].Tick? && TicksBefore(es, i) == ticks
  {
    CountsDown(s, es, n, k, ticks, i);
  }

  /** A canceled task that stays pending never crosses a multiple of `n`. */
  lemma {:induction false} StaysCanceled<K>(s: State<K>, es: seq<Event<K>>, n: nat, k: K, j: nat, i: nat)
    requires n > 0 && j < i <= |es| && es[j] == Cancel(k)
    requires forall m :: 0 <= m < |es| && es[m].Add? ==> es[m].task != k
    ensures k in At(s, es, n, i).canceled && TicksBefore(es, i) >= TicksBefore(es, j)
    ensures k in At(s, es, n, i).pending ==>
              var u, t := At(s, es, n, j).pending, At(s, es, n, i).pending;
              && k in u && Laps(t[k], n) == Laps(u[k], n)
              && u[k] == t[k] + TicksBefore(es, i) - TicksBefore(es, j)
  {
    hide Laps;
    if i > j + 1 {
      StaysCanceled(s, es, n, k, j, i - 1);
      var t := At(s, es, n, i - 1).pending;
      if es[i - 1].Tick? && k in t && t[k] % n != 0 {
        SameLap(t[k], n);
      }
    }
  }

  /** A task canceled before its tick never runs after that, and is gone within `n` ticks. */
  lemma CanceledNeverRuns<K>(s: State<K>, es: seq<Event<K>>, n: nat, k: K, j: nat, i: nat)
    requires n > 0 && j < i <= |es| && es[j] == Cancel(k)
    requires forall m :: 0 <= m < |es| && es[m].Add? ==> es[m].task != k
    ensures i < |es| ==> !RunsAt(s, es, n, i, k)
    ensures TicksBefore(es, i) >= TicksBefore(es, j) + n ==> k !in At(s, es, n, i).pending
  {
    hide Laps;
    StaysCanceled(s, es, n, k, j, i);
    if k in At(s, es, n, i).pending {
      LapLength(At(s, es, n, j).pending[k], At(s, es, n, i).pending[k], n);
    }
  }
}
