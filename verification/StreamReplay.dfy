/**
 The handover of a Redis stream from batch replay to a consumer group.  A stream is its
 message ids in order; `logs(i)` is what it holds at read `i`, so producers may append
 between any two reads.
 */
module StreamReplay {
  import opened Wrappers

  const BATCH_SIZE := 100

  predicate Ascending(log: seq<nat>) {
    forall i, j :: 0 <= i < j < |log| ==> log[i] < log[j]
  }

  /** Every read sees an ordered stream that still begins with what `log` held. */
  ghost predicate Grows(log: seq<nat>, logs: nat -> seq<nat>) {
    log <= logs(0) && AppendOnly(logs)
  }

  ghost predicate AppendOnly(logs: nat -> seq<nat>) {
    && (forall i: nat :: Ascending(logs(i)))
    && forall i: nat, j: nat :: i <= j ==> logs(i) <= logs(j)
  }

  /** The messages behind id `c`. */
  function After(log: seq<nat>, c: nat): seq<nat> {
    if log == [] then [] else if log[0] > c then log else After(log[1..], c)
  }

  function XRead(log: seq<nat>, c: nat): seq<nat> {
    var rest := After(log, c);
    if |rest| <= BATCH_SIZE then rest else rest[..BATCH_SIZE]
  }

  /** The messages of a batch up to and with `last`. */
  function UpTo(batch: seq<nat>, last: nat): seq<nat> {
    if batch == [] then []
    else if batch[0] == last then [last]
    else [batch[0]] + UpTo(batch[1..], last)
  }

  datatype Replay = Replay(current: nat, handed: seq<nat>, done: bool)

  /** One round of the loop. */
  function Round(log: seq<nat>, last: nat, r: Replay): Replay {
    var batch := XRead(log, r.current);
    if r.done then r
    else if batch == [] then r.(done := true)
    else
      var taken := UpTo(batch, last);
      if taken == [] then r else Replay(taken[|taken| - 1], r.handed + taken, last in batch)
  }

  function Rounds(logs: nat -> seq<nat>, last: nat, start: nat, n: nat): Replay {
    if n == 0 then Replay(start, [], false) else Round(logs(n - 1), last, Rounds(logs, last, start, n - 1))
  }

  /** Where to start: "$" and no position at all replay nothing. */
  datatype Position = Newest | Unset | At(id: nat)

  /**
   The replay loop, for at most `limit` reads.  `None` stands for the last id of a stream that
   does not exist; a stream that exists and never had a message has the last id 0.
   */
  method ReplayUntilLastID(logs: nat -> seq<nat>, start: Position, last: Option<nat>, limit: nat)
    returns (handed: seq<nat>, finished: bool)
    ensures last.None? || !start.At? ==> handed == [] && finished
    ensures last.Some? && start.At? ==>
              var r := Rounds(logs, last.value, start.id, limit); handed == r.handed && finished == r.done
  {
    hide XRead, UpTo;
    handed := [];
    if last.None? || start.Newest? || start.Unset? {
      return [], true;
    }
    var end, current := last.value, start.id;
    finished := false;
    var n := 0;
    while !finished && n < limit
      invariant n <= limit && Rounds(logs, end, start.id, n) == Replay(current, handed, finished)
    {
      var batch := XRead(logs(n), current);
      if |batch| == 0 {
        finished := true;
      } else {
        ghost var before := handed;
        var i, done := 0, false;
        while i < |batch| && !done
          invariant i <= |batch|
          invariant handed == before + batch[..i]
          invariant i > 0 ==> current == batch[i - 1]
          invariant done ==> i > 0 && batch[i - 1] == end
          invariant end !in batch[..if done then i - 1 else i]
        {
          handed := handed + [batch[i]];
          current := batch[i];
          if batch[i] == end {
            done := true;
          }
          i := i + 1;
        }
        UpToIs(batch, end, i, done);
        finished := done;
      }
      n := n + 1;
    }
    StaysDone(logs, end, start.id, n, limit);
  }

  lemma {:induction false} UpToIs(batch: seq<nat>, last: nat, i: nat, done: bool)
    requires i <= |batch| && (done ==> i > 0 && batch[i - 1] == last) && (!done ==> i == |batch|)
    requires last !in batch[..if done then i - 1 else i]
    ensures UpTo(batch, last) == batch[..i] && (last in batch <==> done)
  {
    if i > 0 && batch[0] != last {
      assert batch[1..][..i - 1] == batch[1..i];
      UpToIs(batch[1..], last, i - 1, done);
    }
  }

  lemma {:induction false} StaysDone(logs: nat -> seq<nat>, last: nat, start: nat, n: nat, m: nat)
    requires n <= m && (n < m ==> Rounds(logs, last, start, n).done)
    ensures Rounds(logs, last, start, m) == Rounds(logs, last, start, n)
    decreases m
  {
    if n < m {
      StaysDone(logs, last, start, n, m - 1);
    }
  }

  // ---------------------------------------------------------------- streams and positions

  lemma {:induction false} AfterIs(log: seq<nat>, c: nat, k: nat)
    requires Ascending(log) && k <= |log|
    requires (forall i :: 0 <= i < k ==> log[i] <= c) && forall i :: k <= i < |log| ==> log[i] > c
    ensures After(log, c) == log[k..]
  {
    if k > 0 {
      AfterIs(log[1..], c, k - 1);
    }
  }

  lemma {:induction false} SplitPoint(log: seq<nat>, c: nat) returns (k: nat)
    requires Ascending(log)
    ensures k <= |log| && After(log, c) == log[k..]
    ensures (forall i :: 0 <= i < k ==> log[i] <= c) && forall i :: k <= i < |log| ==> log[i] > c
  {
    k := 0;
    while k < |log| && log[k] <= c
      invariant k <= |log| && forall i :: 0 <= i < k ==> log[i] <= c
    {
      k := k + 1;
    }
    AfterIs(log, c, k);
  }

  /** Reading behind the `m`-th message behind `c` goes on with the next one. */
  lemma AfterContinues(log: seq<nat>, c: nat, m: nat)
    requires Ascending(log) && 0 < m <= |After(log, c)|
    ensures After(log, After(log, c)[m - 1]) == After(log, c)[m..]
  {
    var k := SplitPoint(log, c);
    AfterIs(log, log[k + m - 1], k + m);
    assert log[k..][m..] == log[k + m..];
  }

  /** What was behind `c` stays there, in place, when messages are appended. */
  lemma AfterGrows(log: seq<nat>, log': seq<nat>, c: nat)
    requires log <= log' && Ascending(log')
    ensures After(log, c) <= After(log', c)
  {
    var k := SplitPoint(log', c);
    if k <= |log| {
      AfterIs(log, c, k);
    } else {
      AfterIs(log, c, |log|);
    }
  }

  // ---------------------------------------------------------------- the replay hands over a window

  /** Where the loop stands after handing over the first `m` messages behind `start`. */
  ghost predicate HandedFirst(log: seq<nat>, start: nat, r: Replay, m: nat) {
    && m <= |After(log, start)| && r.handed == After(log, start)[..m]
    && r.current == if m == 0 then start else After(log, start)[m - 1]
  }

  function Min(a: int, b: int): int {
    if a < b then a else b
  }

  lemma NextBatch(log: seq<nat>, start: nat, r: Replay, m: nat)
    requires Ascending(log) && HandedFirst(log, start, r, m)
    ensures XRead(log, r.current) == After(log, start)[m..Min(m + BATCH_SIZE, |After(log, start)|)]
  {
    if m > 0 {
      AfterContinues(log, start, m);
    }
  }

  lemma AfterAscends(log: seq<nat>, c: nat)
    requires Ascending(log)
    ensures Ascending(After(log, c)) && forall i :: 0 <= i < |After(log, c)| ==> After(log, c)[i] > c
  {
    var k := SplitPoint(log, c);
  }

  /** Message `w` behind `start` is `last`; beyond the end of what is there yet, none is. */
  ghost predicate LastAt(log: seq<nat>, start: nat, last: nat, w: nat) {
    var all := After(log, start);
    if w < |all| then all[w] == last else last !in all
  }

  /** A batch that is `all[m..e]`, cut behind message `w` if that is in it. */
  lemma BatchUpTo(all: seq<nat>, m: nat, e: nat, w: nat, last: nat)
    requires Ascending(all) && m < e <= |all| && m <= w && if w < |all| then all[w] == last else last !in all
    ensures var end := Min(e, w + 1);
            UpTo(all[m..e], last) == all[m..end] && (last in all[m..e] <==> end == w + 1)
  {
    var end := Min(e, w + 1);
    var batch, i, done := all[m..e], end - m, end == w + 1;
    forall j | 0 <= j < |batch| && m + j != w ensures batch[j] != last {
      assert batch[j] == all[m + j];
    }
    UpToIs(batch, last, i, done);
    assert batch[..i] == all[m..end];
  }

  /** What comes out of a round that reads something. */
  lemma NextBatchHanded(log: seq<nat>, start: nat, last: nat, r: Replay, m: nat, e: nat, w: nat)
    requires HandedFirst(log, start, r, m) && !r.done && Ascending(After(log, start)) && LastAt(log, start, last, w) && m <= w
    requires m < e <= |After(log, start)| && XRead(log, r.current) == After(log, start)[m..e]
    ensures var m' := Min(e, w + 1);
            HandedFirst(log, start, Round(log, last, r), m') && (Round(log, last, r).done <==> m' == w + 1)
  {
    hide XRead, After, UpTo, Ascending;
    var all, end := After(log, start), Min(e, w + 1);
    BatchUpTo(all, m, e, w, last);
    assert all[..m] + all[m..end] == all[..end];
  }

  /** One more round: the next hundred messages, or as far as `last` when that is among them. */
  lemma NextRound(log: seq<nat>, start: nat, last: nat, r: Replay, m: nat, w: nat)
    requires Ascending(log) && HandedFirst(log, start, r, m) && !r.done && LastAt(log, start, last, w) && m <= w
    ensures var all := After(log, start);
            var m' := Min(Min(m + BATCH_SIZE, |all|), w + 1);
            HandedFirst(log, start, Round(log, last, r), m') && (Round(log, last, r).done <==> m == |all| || m' == w + 1)
  {
    hide XRead, After, UpTo, Ascending, LastAt;
    NextBatch(log, start, r, m);
    AfterAscends(log, start);
    var all := After(log, start);
    if m < |all| {
      NextBatchHanded(log, start, last, r, m, Min(m + BATCH_SIZE, |all|), w);
      hide Round, HandedFirst;
    }
  }

  /** The messages with ids above `a` and up to `b`. */
  function Between(log: seq<nat>, a: nat, b: nat): seq<nat> {
    if log == [] then []
    else (if a < log[0] <= b then [log[0]] else []) + Between(log[1..], a, b)
  }

  lemma {:induction false} BetweenIs(log: seq<nat>, a: nat, b: nat, k: nat, l: nat)
    requires k <= l <= |log|
    requires (forall i :: 0 <= i < k ==> log[i] <= a) && (forall i :: k <= i < l ==> a < log[i] <= b)
    requires forall i :: l <= i < |log| ==> b < log[i]
    ensures Between(log, a, b) == log[k..l]
  {
    if log != [] {
      if l > 0 {
        BetweenIs(log[1..], a, b, if k > 0 then k - 1 else 0, l - 1);
        assert log[1..][(if k > 0 then k - 1 else 0)..l - 1] == log[(if k > 0 then k else 1)..l];
        assert k == 0 ==> log[0..l] == [log[0]] + log[1..l];
      } else {
        BetweenIs(log[1..], a, b, 0, 0);
      }
    }
  }

  /** The window that ends at a message of the stream is the front of what is behind `start`. */
  lemma WindowIsFront(log: seq<nat>, start: nat, last: nat) returns (w: nat)
    requires Ascending(log) && last in log && start < last
    ensures w < |After(log, start)| && After(log, start)[w] == last
    ensures Between(log, start, last) == After(log, start)[..w + 1]
    ensures After(log, last) == After(log, start)[w + 1..]
  {
    hide After, Between, Ascending;
    var k := SplitPoint(log, start);
    var j: nat :| j < |log| && log[j] == last;
    w := j - k;
    AroundIndex(log, j);
    BetweenIs(log, start, last, k, j + 1);
    AfterIs(log, last, j + 1);
    TailSlices(log, k, w);
  }

  lemma AroundIndex(log: seq<nat>, j: nat)
    requires Ascending(log) && j < |log|
    ensures forall i :: 0 <= i < j + 1 ==> log[i] <= log[j]
    ensures forall i :: j + 1 <= i < |log| ==> log[j] < log[i]
  {
  }

  lemma TailSlices(log: seq<nat>, k: nat, w: nat)
    requires k + w < |log|
    ensures log[k..][w] == log[k + w]
    ensures log[k..][..w + 1] == log[k..k + w + 1] && log[k..][w + 1..] == log[k + w + 1..]
  {
  }

  lemma StillLastAt(log: seq<nat>, log': seq<nat>, start: nat, last: nat, w: nat)
    requires log <= log' && Ascending(log') && w < |After(log, start)| && After(log, start)[w] == last
    ensures LastAt(log', start, last, w)
  {
    AfterGrows(log, log', start);
  }

  /** After `n` reads of a growing stream the loop stands at most behind message `w`, and has made progress. */
  lemma {:induction false} RoundsProgress(logs: nat -> seq<nat>, start: nat, last: nat, w: nat, n: nat) returns (m: nat)
    requires AppendOnly(logs) && forall i: nat :: LastAt(logs(i), start, last, w)
    ensures HandedFirst(logs(n), start, Rounds(logs, last, start, n), m)
    ensures m <= w + 1 && (m == w + 1 ==> Rounds(logs, last, start, n).done)
    ensures Min(Min(n * BATCH_SIZE, |After(logs(0), start)|), w + 1) <= m <= n * BATCH_SIZE
    ensures Rounds(logs, last, start, n).done ==> m == w + 1 || m >= |After(logs(0), start)|
  {
    hide XRead, After, Round, LastAt;
    if n == 0 {
      m := 0;
    } else {
      var l := RoundsProgress(logs, start, last, w, n - 1);
      AfterGrows(logs(n - 1), logs(n), start);
      AfterGrows(logs(0), logs(n - 1), start);
      if Rounds(logs, last, start, n - 1).done {
        DoneStays(logs(n - 1), last, Rounds(logs, last, start, n - 1));
        m := l;
      } else {
        NextRound(logs(n - 1), start, last, Rounds(logs, last, start, n - 1), l, w);
        m := Min(Min(l + BATCH_SIZE, |After(logs(n - 1), start)|), w + 1);
      }
    }
  }

  lemma DoneStays(log: seq<nat>, last: nat, r: Replay)
    requires r.done
    ensures Round(log, last, r) == r
  {
  }

  /**
   When `last` is in the stream and behind `start`, the loop hands over the messages in
   (start, last], in order, once each, a hundred a read, and is done when it has them all, whatever
   is appended meanwhile.
   */
  lemma ReplaysWindow(log: seq<nat>, logs: nat -> seq<nat>, start: nat, last: nat, n: nat)
    requires Grows(log, logs) && last in log && start < last
    ensures var r, window := Rounds(logs, last, start, n), Between(log, start, last);
            && r.handed <= window
            && (r.done <==> r.handed == window)
            && |r.handed| == if 100 * n < |window| then 100 * n else |window|
  {
    hide XRead, After, Between, Round;
    assert Ascending(log) by { assert log <= logs(0); }
    var w := WindowIsFront(log, start, last);
    forall i: nat ensures LastAt(logs(i), start, last, w) {
      StillLastAt(log, logs(i), start, last, w);
    }
    var m := RoundsProgress(logs, start, last, w, n);
    AfterGrows(log, logs(n), start);
    AfterGrows(log, logs(0), start);
    assert After(logs(n), start)[..m] == After(log, start)[..m];
  }

  // ---------------------------------------------------------------- the consumer group

  /** Reads of the group, created at `last`, one message at a time; a read that finds nothing does nothing. */
  function GroupReads(logs: nat -> seq<nat>, last: nat, n: nat): Replay {
    if n == 0 then Replay(last, [], false)
    else
      var g := GroupReads(logs, last, n - 1);
      var next := After(logs(n - 1), g.current);
      if next == [] then g else Replay(next[0], g.handed + [next[0]], false)
  }

  lemma {:induction false} GroupDelivers(logs: nat -> seq<nat>, last: nat, n: nat)
    requires AppendOnly(logs)
    ensures var g := GroupReads(logs, last, n); HandedFirst(logs(n), last, g, |g.handed|)
    ensures |GroupReads(logs, last, n).handed| >= Min(n, |After(logs(0), last)|)
  {
    hide After;
    if n > 0 {
      GroupDelivers(logs, last, n - 1);
      var g, log := GroupReads(logs, last, n - 1), logs(n - 1);
      var all, m := After(log, last), |g.handed|;
      assert After(log, g.current) == all[m..] by {
        if m > 0 {
          AfterContinues(log, last, m);
        }
      }
      AfterGrows(log, logs(n), last);
      AfterGrows(logs(0), log, last);
      if all[m..] != [] {
        assert all[..m] + [all[m]] == all[..m + 1];
      }
    }
  }

  /**
   Replay and group together: every message behind `start` is dispatched once, in order, by
   exactly one of the two; nothing is left out, and the group keeps up with its reads.
   */
  lemma HandoverIsExactlyOnce(log: seq<nat>, logs: nat -> seq<nat>, later: nat -> seq<nat>, start: nat, last: nat,
                              n: nat, m: nat)
    requires Grows(log, logs) && last in log && start < last
    requires 100 * n >= |Between(log, start, last)| && Grows(logs(n), later)
    ensures var r, g := Rounds(logs, last, start, n), GroupReads(later, last, m);
            && r.done
            && r.handed + g.handed <= After(later(m), start)
            && Ascending(r.handed + g.handed)
            && |g.handed| >= Min(m, |After(later(0), last)|)
  {
    hide After, Between, Rounds, GroupReads;
    ReplaysWindow(log, logs, start, last, n);
    GroupDelivers(later, last, m);
    assert Ascending(log) by { assert log <= logs(0); }
    assert log <= later(m) by { assert logs(0) <= logs(n) <= later(0) <= later(m); }
    var end := later(m);
    var w := WindowIsFront(end, start, last);
    AfterAscends(end, start);
    WindowsAgree(log, end, start, last);
    var all, g := After(end, start), GroupReads(later, last, m).handed;
    assert g == all[w + 1..][..|g|];
    assert all[..w + 1] + g == all[..w + 1 + |g|];
  }

  /** The window does not change when messages are appended. */
  lemma WindowsAgree(log: seq<nat>, log': seq<nat>, start: nat, last: nat)
    requires log <= log' && Ascending(log') && last in log && start < last
    ensures Between(log, start, last) == Between(log', start, last)
  {
    hide Between, After;
    var w := WindowIsFront(log, start, last);
    var w' := WindowIsFront(log', start, last);
    AfterGrows(log, log', start);
    AfterAscends(log', start);
    var all := After(log', start);
    assert all[w] == last && all[w'] == last;
  }

  // ---------------------------------------------------------------- and otherwise

  function Largest(log: seq<nat>): nat {
    if log == [] then 0 else
      var m := Largest(log[1..]);
      if log[0] > m then log[0] else m
  }

  lemma {:induction false} LargestIs(log: seq<nat>)
    ensures forall i :: 0 <= i < |log| ==> log[i] <= Largest(log)
  {
    if log != [] {
      LargestIs(log[1..]);
      assert forall i :: 0 < i < |log| ==> log[i] == log[1..][i - 1];
    }
  }

  /** A new message is the last one behind any earlier id. */
  lemma NewIsLast(log: seq<nat>, x: nat, c: nat)
    requires Ascending(log + [x]) && c < x
    ensures After(log + [x], c) != [] && After(log + [x], c)[|After(log + [x], c)| - 1] == x
    ensures forall y :: y in After(log + [x], c) ==> y > c && (y == x || y in log)
  {
    var k := SplitPoint(log + [x], c);
    assert (log + [x])[|log|] == x;
  }

  lemma AppendLargest(log: seq<nat>, x: nat)
    requires Ascending(log) && x > Largest(log)
    ensures Ascending(log + [x])
  {
    LargestIs(log);
  }

  /**
   When `last` is not in the stream, or not behind `start`, one message that arrives before
   the first read is handed over by the replay although the group delivers it as well.
   */
  lemma Overruns(log: seq<nat>, start: nat, last: nat) returns (logs: nat -> seq<nat>, n: nat, x: nat)
    requires Ascending(log) && !(last in log && start < last)
    ensures Grows(log, logs) && x > last && x in Rounds(logs, last, start, n).handed && x in After(logs(n), last)
  {
    hide After, Rounds, Largest;
    x := Largest(log) + start + last + 1;
    var log' := log + [x];
    AppendLargest(log, x);
    logs := i => log';
    NewIsLast(log, x, start);
    NewIsLast(log, x, last);
    var all := After(log', start);
    n := |all|;
    var m := RoundsProgress(logs, start, last, n, n);
    assert Rounds(logs, last, start, n).handed[n - 1] == x;
  }

  /** The replay hands over nothing that is the group's exactly when `last` is in the stream and behind `start`. */
  lemma HandoverCondition(log: seq<nat>, start: nat, last: nat)
    requires Ascending(log)
    ensures (last in log && start < last) <==>
            forall logs: nat -> seq<nat>, n: nat :: Grows(log, logs) ==>
              forall x :: x in Rounds(logs, last, start, n).handed ==> x <= last
  {
    hide After, Rounds;
    if last in log && start < last {
      forall logs: nat -> seq<nat>, n: nat | Grows(log, logs)
        ensures forall x :: x in Rounds(logs, last, start, n).handed ==> x <= last
      {
        ReplaysWindow(log, logs, start, last, n);
        BetweenBounds(log, start, last);
      }
    } else {
      var logs, n, x := Overruns(log, start, last);
    }
  }

  lemma {:induction false} BetweenBounds(log: seq<nat>, a: nat, b: nat)
    ensures forall i :: 0 <= i < |Between(log, a, b)| ==> a < Between(log, a, b)[i] <= b
  {
    if log != [] {
      BetweenBounds(log[1..], a, b);
    }
  }
}
