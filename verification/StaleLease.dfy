/**
 A run that shows both hypotheses of JobProtocol to be needed.  A worker finishes a job with
 a TTL and leaves its lease in the row; when the TTL is over, a caller takes the row over
 while a Reaping is between its first two statements, and is reaped at that very moment.
 */
module StaleLease {
  import opened Wrappers
  import opened JobTable
  import opened JobProtocol

  const KEY := "k"

  function MetaWith(status: Status): Meta {
    Meta("1.0.0", status, KEY, KEY, None, 0)
  }

  /** The row of the run, in the columns that change. */
  function RowWith(status: Status, retryCount: Option<int>, ttl: Option<int>, runAt: int, updatedAt: int,
                   leasedUntil: Option<int>): Row
  {
    Row(1, KEY, "h", "1.0.0", status, KEY, KEY, "in", None, None, retryCount, 0, ttl, runAt, 0, updatedAt, leasedUntil)
  }

  function WorldWith(r: Row, clock: int, holders: map<nat, string>, reapers: map<nat, Reaper>, reaped: nat): World {
    World(Table(map[KEY := r], 2), clock, holders, reapers, map[KEY := reaped])
  }

  const QUEUED_1 := RowWith(Queued, None, None, 0, 0, None)
  const LEASED_1 := RowWith(Leased, None, None, 0, 0, Some(0))
  const REQUEUED_1 := RowWith(Queued, Some(1), None, 0, 1, None)
  const LEASED_2 := RowWith(Leased, Some(1), None, 0, 1, Some(1))
  const DONE_2 := RowWith(Done, Some(1), Some(1), 0, 1, Some(1)).(output := Some("out"))
  const TAKEN_OVER_3 := RowWith(Leased, Some(1), None, 2, 2, Some(1)).(output := Some("out"))
  const REQUEUED_3 := RowWith(Queued, Some(2), None, 2, 2, None).(output := Some("out"))
  const LEASED_4 := RowWith(Leased, Some(2), None, 2, 2, Some(2)).(output := Some("out"))

  const WORLD_0: World := World(Table(map[], 1), 0, map[], map[], map[])
  const WORLD_1: World := WorldWith(QUEUED_1, 0, map[], map[], 0)
  const WORLD_2: World := WorldWith(LEASED_1, 0, map[1 := KEY], map[], 0)
  const WORLD_3: World := WorldWith(LEASED_1, 0, map[], map[], 0)
  const WORLD_4: World := WorldWith(LEASED_1, 1, map[], map[], 0)
  const WORLD_5: World := WorldWith(LEASED_1, 1, map[], map[8 := Reaper(1, 0)], 0)
  const WORLD_6: World := WorldWith(LEASED_1, 1, map[], map[8 := Reaper(1, 1)], 0)
  const WORLD_7: World := WorldWith(REQUEUED_1, 1, map[], map[8 := Reaper(1, 2)], 1)
  const WORLD_8: World := WorldWith(REQUEUED_1, 1, map[], map[8 := Reaper(1, 3)], 1)
  const WORLD_9: World := WorldWith(LEASED_2, 1, map[2 := KEY], map[8 := Reaper(1, 3)], 1)
  const WORLD_10: World := WorldWith(DONE_2, 1, map[], map[8 := Reaper(1, 3)], 1)
  const WORLD_11: World := WorldWith(DONE_2, 2, map[], map[8 := Reaper(1, 3)], 1)
  const WORLD_12: World := WorldWith(DONE_2, 2, map[], map[8 := Reaper(1, 3), 9 := Reaper(2, 0)], 1)
  const WORLD_13: World := WorldWith(DONE_2, 2, map[], map[8 := Reaper(1, 3), 9 := Reaper(2, 1)], 1)
  const WORLD_14: World := WorldWith(TAKEN_OVER_3, 2, map[3 := KEY], map[8 := Reaper(1, 3), 9 := Reaper(2, 1)], 1)
  const WORLD_15: World := WorldWith(REQUEUED_3, 2, map[3 := KEY], map[8 := Reaper(1, 3), 9 := Reaper(2, 2)], 2)
  const WORLD_16: World := WorldWith(LEASED_4, 2, map[3 := KEY, 4 := KEY], map[8 := Reaper(1, 3), 9 := Reaper(2, 2)], 2)

  ghost predicate Leads(w: World, op: Op, w': World) {
    Enabled(w, op) && w' == Do(w, op, 1)
  }

  lemma OnlyRowIsNext(r: Row, handlers: set<string>, now: int)
    requires Eligible(r, handlers, now)
    ensures Next(Table(map[KEY := r], 2), handlers, now) == Some(KEY)
  {
    assert IsNext(Table(map[KEY := r], 2), handlers, now, KEY);
  }

  lemma Step0()
    ensures Leads(WORLD_0, Enqueue(1, "h", MetaWith(Queued), KEY, "in"), WORLD_1)
  {
  }

  lemma Step1()
    ensures Leads(WORLD_1, Dequeue(1, {"h"}, 0), WORLD_2)
  {
    OnlyRowIsNext(QUEUED_1, {"h"}, 0);
  }

  lemma Step2()
    ensures Leads(WORLD_2, Leave(1), WORLD_3)
  {
  }

  lemma Step3()
    ensures Leads(WORLD_3, Advance(1), WORLD_4)
  {
  }

  lemma Step4()
    ensures Leads(WORLD_4, BeginReap(8), WORLD_5)
  {
  }

  lemma Step5()
    ensures Leads(WORLD_5, ReapNext(8), WORLD_6)
  {
  }

  lemma Step6()
    ensures Leads(WORLD_6, ReapNext(8), WORLD_7)
  {
    RequeuedOnlyRow(LEASED_1, 1);
    hide RequeueExpired;
  }

  lemma Step7()
    ensures Leads(WORLD_7, ReapNext(8), WORLD_8)
  {
  }

  lemma Step8()
    ensures Leads(WORLD_8, Dequeue(2, {"h"}, 0), WORLD_9)
  {
    OnlyRowIsNext(REQUEUED_1, {"h"}, 1);
  }

  lemma Step9()
    ensures Leads(WORLD_9, FinishDone(2, Done, Some(1), Some("out"), None), WORLD_10)
  {
  }

  lemma Step10()
    ensures Leads(WORLD_10, Advance(1), WORLD_11)
  {
  }

  lemma Step11()
    ensures Leads(WORLD_11, BeginReap(9), WORLD_12)
  {
  }

  lemma Step12()
    ensures Leads(WORLD_12, ReapNext(9), WORLD_13)
  {
  }

  lemma Step13()
    ensures Leads(WORLD_13, Enqueue(3, "h", MetaWith(Leased), KEY, "in"), WORLD_14)
  {
  }

  lemma RequeuedOnlyRow(r: Row, now: int)
    requires LeaseOver(r, now)
    ensures RequeueExpired(Table(map[KEY := r], 2), now) == Table(map[KEY := ReapedRow(r, now)], 2)
  {
  }

  lemma Step14()
    ensures Leads(WORLD_14, ReapNext(9), WORLD_15)
  {
    RequeuedOnlyRow(TAKEN_OVER_3, 2);
    hide RequeueExpired;
  }

  lemma Step15()
    ensures Leads(WORLD_15, Dequeue(4, {"h"}, 0), WORLD_16)
  {
    OnlyRowIsNext(REQUEUED_3, {"h"}, 2);
  }

  function Script(): seq<Op> {
    [ Enqueue(1, "h", MetaWith(Queued), KEY, "in"),
      Dequeue(1, {"h"}, 0),
      Leave(1),
      Advance(1),
      BeginReap(8),
      ReapNext(8),
      ReapNext(8),
      ReapNext(8),
      Dequeue(2, {"h"}, 0),
      FinishDone(2, Done, Some(1), Some("out"), None),
      Advance(1),
      BeginReap(9),
      ReapNext(9),
      Enqueue(3, "h", MetaWith(Leased), KEY, "in"),
      ReapNext(9),
      Dequeue(4, {"h"}, 0) ]
  }

  function Worlds(): seq<World> {
    [WORLD_0, WORLD_1, WORLD_2, WORLD_3, WORLD_4, WORLD_5, WORLD_6, WORLD_7, WORLD_8,
     WORLD_9, WORLD_10, WORLD_11, WORLD_12, WORLD_13, WORLD_14, WORLD_15, WORLD_16]
  }

  lemma AllLead()
    ensures forall i :: 0 <= i < 16 ==> Leads(Worlds()[i], Script()[i], Worlds()[i + 1])
  {
    hide Leads, RowWith, WorldWith, MetaWith;
    forall i | 0 <= i < 16 ensures Leads(Worlds()[i], Script()[i], Worlds()[i + 1]) {
      match i
      case 0 => Step0();
      case 1 => Step1();
      case 2 => Step2();
      case 3 => Step3();
      case 4 => Step4();
      case 5 => Step5();
      case 6 => Step6();
      case 7 => Step7();
      case 8 => Step8();
      case 9 => Step9();
      case 10 => Step10();
      case 11 => Step11();
      case 12 => Step12();
      case 13 => Step13();
      case 14 => Step14();
      case 15 => Step15();
    }
  }

  lemma LeadsIsRun(ws: seq<World>, ops: seq<Op>)
    requires |ws| == |ops| + 1 && forall i :: 0 <= i < |ops| ==> Leads(ws[i], ops[i], ws[i + 1])
    ensures IsRun(ws, ops, 1)
  {
    forall i | 0 <= i < |ops| ensures Enabled(ws[i], ops[i]) && ws[i + 1] == Do(ws[i], ops[i], 1) {
      assert Leads(ws[i], ops[i], ws[i + 1]);
    }
  }

  /** Two live holders, the later one let in at the very time of the earlier; and one reaping too many. */
  lemma TakeoverIsReaped()
    ensures IsRun(Worlds(), Script(), 1) && Initial(Worlds()[0])
    ensures var last := Worlds()[16];
            && last.holders == map[3 := KEY, 4 := KEY]
            && Worlds()[13].clock == last.clock && 3 !in Worlds()[13].holders
            && last.reaped[KEY] > Cap(1)
  {
    hide Leads, IsRun;
    AllLead();
    LeadsIsRun(Worlds(), Script());
  }
}
