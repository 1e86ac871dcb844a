/** The hashed timing wheel: a ring of slots, each task with the rounds it still has to wait. */
module TimeWheel {
  import opened Countdown
  import opened Modular

  /** The number of ticks that `Add` makes of a delay. */
  function Ticks(delay: int, interval: int): nat
    requires delay >= 0 && interval > 0
  {
    if delay / interval < 1 && delay > 0 then 1 else delay / interval
  }

  /** How many ticks ahead of `current` a slot is. */
  function Ahead(slot: nat, current: nat, n: nat): nat
    requires slot < n && current < n
  {
    if slot >= current then slot - current else slot + n - current
  }

  /** As many whole ticks as the delay has, but at least one if there is any delay. */
  lemma TicksOfDelay(delay: int, interval: int)
    requires delay >= 0 && interval > 0
    ensures delay == 0 ==> Ticks(delay, interval) == 0
    ensures 0 < delay < interval ==> Ticks(delay, interval) == 1
    ensures delay >= interval ==>
              Ticks(delay, interval) >= 1 && Ticks(delay, interval) * interval <= delay < (Ticks(delay, interval) + 1) * interval
  {
    var q := delay / interval;
    assert delay == q * interval + delay % interval;
    if delay < interval {
      QuotientIs(delay, 0, delay, interval);
    }
  }

  /** The rounds that `Add` gives a task. */
  function Rounds(ticks: nat, n: nat): nat
    requires n > 0
  {
    ticks / n
  }

  /** The slot that `Add` puts it in. */
  function Slot(ticks: nat, current: nat, n: nat): (slot: nat)
    requires n > 0
    ensures slot < n
  {
    (current + ticks) % n
  }

  /** The slot and the rounds that `Add` computes stand for exactly `ticks` ticks. */
  lemma PlacedAt(ticks: nat, current: nat, n: nat)
    requires current < n
    ensures Rounds(ticks, n) * n + Ahead(Slot(ticks, current, n), current, n) == ticks
  {
    var q, r := ticks / n, ticks % n;
    assert ticks == q * n + r;
    if current + r < n {
      assert current + ticks == q * n + (current + r);
      QuotientIs(current + ticks, q, current + r, n);
    } else {
      assert current + ticks == (q + 1) * n + (current + r - n);
      QuotientIs(current + ticks, q + 1, current + r - n, n);
    }
  }

  /** One tick takes one off what rounds and slot stand for; only the current slot is at a multiple of `n`. */
  lemma RemainingStep(rounds: nat, slot: nat, current: nat, n: nat)
    requires slot < n && current < n
    ensures var p := rounds * n + Ahead(slot, current, n);
            && (p % n == 0 <==> slot == current)
            && (p == 0 <==> rounds == 0 && slot == current)
            && (slot == current && rounds > 0 ==> p - 1 == (rounds - 1) * n + Ahead(slot, (current + 1) % n, n))
            && (slot != current ==> p - 1 == rounds * n + Ahead(slot, (current + 1) % n, n))
  {
    var p := rounds * n + Ahead(slot, current, n);
    QuotientIs(p, rounds, Ahead(slot, current, n), n);
    if current + 1 == n {
      QuotientIs(current + 1, 1, 0, n);
    } else {
      QuotientIs(current + 1, 0, current + 1, n);
    }
    assert (rounds - 1) * n == rounds * n - n;
    if rounds > 0 {
      assert rounds * n >= n by { assert (rounds - 1) * n >= 0; }
    }
  }

  /** With evenly spaced ticks, of which the first comes `wait` after the call of `Add`. */
  lemma ElapsedTime(delay: int, interval: int, wait: int)
    requires delay >= 0 && interval > 0 && 0 <= wait <= interval
    ensures var elapsed := wait + Ticks(delay, interval) * interval;
            && delay - interval < elapsed
            && elapsed <= (if delay >= interval then delay else interval) + interval
            && (0 < delay < interval ==> delay < elapsed == wait + interval)
  {
    TicksOfDelay(delay, interval);
    var q := delay / interval;
    assert delay == q * interval + delay % interval;
  }

  class Task {
    const delay: int
    var rounds: nat
    var canceled: bool

    constructor (delay: int, rounds: nat)
      ensures this.delay == delay && this.rounds == rounds && !canceled
    {
      this.delay, this.rounds, canceled := delay, rounds, false;
    }

    method Cancel()
      modifies this`canceled
      ensures canceled
    {
      canceled := true;
    }
  }

  /** `slotOf` says where each task is, and each task is there once. */
  ghost predicate Placed(slots: seq<seq<Task>>, slotOf: map<Task, nat>) {
    && (forall i, j :: 0 <= i < |slots| && 0 <= j < |slots[i]| ==>
          slots[i][j] in slotOf && slotOf[slots[i][j]] == i)
    && (forall t :: t in slotOf ==> slotOf[t] < |slots| && t in slots[slotOf[t]])
    && (forall i :: 0 <= i < |slots| ==> Distinct(slots[i]))
  }

  ghost predicate Distinct(tasks: seq<Task>) {
    forall j, k :: 0 <= j < k < |tasks| ==> tasks[j] != tasks[k]
  }

  lemma PlaceOneMore(slots: seq<seq<Task>>, slotOf: map<Task, nat>, task: Task, i: nat)
    requires Placed(slots, slotOf) && task !in slotOf && i < |slots|
    ensures Placed(slots[i := slots[i] + [task]], slotOf[task := i])
  {
    var slots' := slots[i := slots[i] + [task]];
    assert slots'[i][|slots[i]|] == task;
    forall t | t in slotOf ensures t in slots'[slotOf[t]] {
      assert slots[slotOf[t]] <= slots'[slotOf[t]];
    }
  }

  lemma KeepSome(slots: seq<seq<Task>>, slotOf: map<Task, nat>, c: nat, kept: seq<Task>)
    requires Placed(slots, slotOf) && c < |slots| && Distinct(kept)
    requires forall t :: t in kept ==> t in slots[c]
    ensures Placed(slots[c := kept], Kept(slotOf, c, kept))
  {
    var slots', slotOf' := slots[c := kept], Kept(slotOf, c, kept);
    forall i, j | 0 <= i < |slots'| && 0 <= j < |slots'[i]|
      ensures slots'[i][j] in slotOf' && slotOf'[slots'[i][j]] == i
    {
      if i == c {
        assert slots'[i][j] in slots[c];
      }
    }
    forall t | t in slotOf' ensures t in slots'[slotOf'[t]] {
      assert t in slots[slotOf[t]];
    }
  }

  lemma InSlot(slots: seq<seq<Task>>, slotOf: map<Task, nat>, c: nat)
    requires Placed(slots, slotOf) && c < |slots|
    ensures forall t :: t in slots[c] <==> t in slotOf && slotOf[t] == c
    ensures forall t :: t in slotOf ==> slotOf[t] < |slots|
  {
  }

  ghost function Kept(slotOf: map<Task, nat>, c: nat, kept: seq<Task>): map<Task, nat> {
    map t | t in slotOf && (slotOf[t] == c ==> t in kept) :: slotOf[t]
  }

  /** The countdown that slots and rounds stand for. */
  ghost function Counts(slotOf: map<Task, nat>, rounds: map<Task, nat>, current: nat, n: nat): map<Task, nat>
    requires current < n && slotOf.Keys <= rounds.Keys && forall t :: t in slotOf ==> slotOf[t] < n
  {
    map t | t in slotOf :: rounds[t] * n + Ahead(slotOf[t], current, n)
  }

  /** Sweeping the current slot and moving on is one tick of the countdown. */
  lemma SweepIsTick(slotOf: map<Task, nat>, rounds: map<Task, nat>, rounds': map<Task, nat>, canceled: set<Task>,
                    current: nat, n: nat, kept: seq<Task>, run: seq<Task>)
    requires current < n && slotOf.Keys == rounds.Keys == rounds'.Keys && forall t :: t in slotOf ==> slotOf[t] < n
    requires forall t :: t in kept <==> t in slotOf && slotOf[t] == current && t !in canceled && rounds[t] > 0
    requires forall t :: t in run <==> t in slotOf && slotOf[t] == current && t !in canceled && rounds[t] == 0
    requires forall t :: t in slotOf ==> rounds'[t] == if t in kept then rounds[t] - 1 else rounds[t]
    ensures Counts(Kept(slotOf, current, kept), rounds', (current + 1) % n, n)
            == TickPending(Counts(slotOf, rounds, current, n), canceled, n)
    ensures (set t | t in run) == Due(Counts(slotOf, rounds, current, n), canceled)
  {
    hide Ahead;
    var pending := Counts(slotOf, rounds, current, n);
    forall t | t in slotOf
      ensures pending[t] == 0 <==> rounds[t] == 0 && slotOf[t] == current
      ensures pending[t] % n == 0 <==> slotOf[t] == current
      ensures t in Kept(slotOf, current, kept) ==>
                pending[t] - 1 == rounds'[t] * n + Ahead(slotOf[t], (current + 1) % n, n)
    {
      RemainingStep(rounds[t], slotOf[t], current, n);
    }
  }

  class Wheel {
    var slots: array<seq<Task>>
    var current: nat
    const tickInterval: int

    /** Where each task is. */
    ghost var slotOf: map<Task, nat>

    ghost predicate Valid()
      reads this, slots
    {
      && slots.Length > 0 && current < slots.Length && tickInterval > 0
      && Placed(slots[..], slotOf)
    }

    ghost function Remaining(t: Task): nat
      requires Valid() && t in slotOf
      reads this, slots, t`rounds
    {
      t.rounds * slots.Length + Ahead(slotOf[t], current, slots.Length)
    }

    /** The countdown list that the wheel stands for. */
    ghost function Pending(): map<Task, nat>
      requires Valid()
      reads this, slots, slotOf.Keys
    {
      map t | t in slotOf :: Remaining(t)
    }

    ghost function Canceled(): set<Task>
      reads this, slotOf.Keys
    {
      set t | t in slotOf && t.canceled
    }

    constructor (slotCount: int, interval: int)
      requires interval > 0
      ensures Valid() && fresh(slots) && Pending() == map[] && tickInterval == interval
      ensures slots.Length == if slotCount <= 0 then 32 else slotCount
    {
      var n := if slotCount <= 0 then 32 else slotCount;
      slots := new seq<Task>[n](i => []);
      current := 0;
      tickInterval := interval;
      slotOf := map[];
    }

    /** Puts a new task into slot `idx`, where it has `ticks` ticks to go. */
    method Link(task: Task, idx: nat, ghost ticks: nat)
      requires Valid() && task !in slotOf && idx < slots.Length && !task.canceled
      requires task.rounds * slots.Length + Ahead(idx, current, slots.Length) == ticks
      modifies this`slotOf, slots
      ensures Valid() && slotOf == old(slotOf)[task := idx]
      ensures Pending() == old(Pending())[task := ticks] && Canceled() == old(Canceled())
    {
      hide Placed, Ahead;
      PlaceOneMore(slots[..], slotOf, task, idx);
      ghost var placed := slots[..][idx := slots[idx] + [task]];
      slots[idx] := slots[idx] + [task];
      assert slots[..] == placed;
      slotOf := slotOf[task := idx];
    }

    method Add(delay: int) returns (task: Task)
      requires Valid() && delay >= 0
      modifies this`slotOf, slots
      ensures Valid() && fresh(task) && task.delay == delay && !task.canceled
      ensures Pending() == old(Pending())[task := Ticks(delay, tickInterval)]
      ensures Canceled() == old(Canceled())
      ensures task in Due(Pending(), Canceled()) <==> delay == 0
    {
      hide Placed, Ahead, Pending, Remaining, Ticks, Rounds, Slot;
      TicksOfDelay(delay, tickInterval);
      var slotCount := slots.Length;
      var ticks := Ticks(delay, tickInterval);
      PlacedAt(ticks, current, slotCount);
      task := new Task(delay, Rounds(ticks, slotCount));
      Link(task, Slot(ticks, current, slotCount), ticks);
    }
  
    /** Empties the current slot, puts back what has rounds left, and collects what is to run. */
    method Sweep() returns (run: seq<Task>)
      requires Valid()
      modifies slots, slots[current]`rounds
      ensures Distinct(slots[current]) && Distinct(run)
      ensures slots[..] == old(slots[..])[current := slots[current]]
      ensures forall t :: t in slots[current] <==> t in old(slots[current]) && !t.canceled && old(t.rounds) > 0
      ensures forall t :: t in run <==> t in old(slots[current]) && !t.canceled && old(t.rounds) == 0
      ensures forall t :: t in old(slots[current]) ==>
                t.rounds == if t in slots[current] then old(t.rounds) - 1 else old(t.rounds)
    {
      var tasks := slots[current];
      slots[current] := [];
      run := [];
      for i := 0 to |tasks|
        invariant slots[..] == old(slots[..])[current := slots[current]]
        invariant forall t :: t in slots[current] <==> t in tasks[..i] && !t.canceled && old(t.rounds) > 0
        invariant forall t :: t in run <==> t in tasks[..i] && !t.canceled && old(t.rounds) == 0
        invariant forall t :: t in tasks ==>
                    t.rounds == if t in slots[current] then old(t.rounds) - 1 else old(t.rounds)
        invariant Distinct(slots[current]) && Distinct(run)
      {
        var t := tasks[i];
        assert t !in tasks[..i] && t !in tasks[i + 1..];
        assert tasks[..i + 1] == tasks[..i] + [t] && tasks[i..] == [t] + tasks[i + 1..];
        if t.canceled {
          continue;
        }
        if t.rounds > 0 {
          t.rounds := t.rounds - 1;
          slots[current] := slots[current] + [t];
          continue;
        }
        run := run + [t];
      }
      assert tasks[..|tasks|] == tasks;
    }
  
    /** One tick, and what it hands over to run. */
    method Tick() returns (run: seq<Task>)
      requires Valid()
      modifies this`current, this`slotOf, slots, slotOf.Keys`rounds
      ensures Valid() && Canceled() <= old(Canceled())
      ensures Pending() == TickPending(old(Pending()), old(Canceled()), slots.Length)
      ensures Distinct(run) && (set t | t in run) == Due(old(Pending()), old(Canceled()))
    {
      hide Ahead, Counts, Placed, TickPending, Due, Pending, Distinct;
      ghost var before, was, canceled := slotOf, current, Canceled();
      ghost var rounds := map t | t in slotOf :: t.rounds;
      PendingIs(rounds);
      InSlot(slots[..], slotOf, current);
      run := Sweep();
      ghost var kept := slots[was];
      KeepSome(old(slots[..]), before, was, kept);
      ghost var rounds' := map t | t in before :: t.rounds;
      SweepIsTick(before, rounds, rounds', canceled, was, slots.Length, kept, run);
      current := (current + 1) % slots.Length;
      slotOf := Kept(before, was, kept);
      PendingIs(rounds');
    }

    lemma PendingIs(rounds: map<Task, nat>)
      requires Valid() && slotOf.Keys <= rounds.Keys && forall t :: t in slotOf ==> rounds[t] == t.rounds
      ensures Pending() == Counts(slotOf, rounds, current, slots.Length)
    {
    }

    /** After `task` ran: its function returned true, so a new task takes its place, canceled or not. */
    method Repeat(task: Task) returns (next: Task)
      requires Valid() && task.delay >= 0
      modifies this`slotOf, slots
      ensures Valid() && fresh(next) && next.delay == task.delay && !next.canceled
      ensures Pending() == old(Pending())[next := Ticks(task.delay, tickInterval)]
      ensures Canceled() == old(Canceled())
    {
      next := Add(task.delay);
    }
  }
}
