/**
 The counters that the triggers of `executions` maintain.  The entry of root "*" counts
 every row; a row whose own root is "*" is counted there a second time.
 */
module JobCounts {
  import opened JobTable

  type Counts = map<(string, Status), int>

  const ALL := "*"

  function Count(c: Counts, root: string, status: Status): int {
    if (root, status) in c then c[(root, status)] else 0
  }

  /** INSERT ... ON CONFLICT DO UPDATE SET count = count + 1. */
  function Up(c: Counts, root: string, status: Status): Counts {
    c[(root, status) := Count(c, root, status) + 1]
  }

  /** UPDATE ... SET count = count - 1, which does nothing when there is no entry. */
  function Down(c: Counts, root: string, status: Status): Counts {
    if (root, status) in c then c[(root, status) := c[(root, status)] - 1] else c
  }

  function AfterInsert(c: Counts, r: Row): Counts {
    Up(Up(c, ALL, r.status), r.rootId, r.status)
  }

  function AfterUpdate(c: Counts, r: Row, r': Row): Counts {
    if r.status != r'.status || r.rootId != r'.rootId then
      Up(Up(Down(Down(c, ALL, r.status), r.rootId, r.status), ALL, r'.status), r'.rootId, r'.status)
    else c
  }

  function AfterDelete(c: Counts, r: Row): Counts {
    Down(Down(c, ALL, r.status), r.rootId, r.status)
  }

  // ---------------------------------------------------------------- what they stand for

  ghost function WithStatus(rows: map<string, Row>, status: Status): set<string> {
    set k | k in rows && rows[k].status == status
  }

  ghost function WithRoot(rows: map<string, Row>, root: string, status: Status): set<string> {
    set k | k in rows && rows[k].status == status && rows[k].rootId == root
  }

  /** What the entry for (root, status) has to be. */
  ghost function Actual(rows: map<string, Row>, root: string, status: Status): nat {
    |WithRoot(rows, root, status)| + if root == ALL then |WithStatus(rows, status)| else 0
  }

  ghost predicate Agree(c: Counts, rows: map<string, Row>) {
    forall root, status :: Count(c, root, status) == Actual(rows, root, status)
  }

  /** How much a row adds to an entry. */
  function Weight(r: Row, root: string, status: Status): nat {
    if r.status != status then 0
    else (if r.rootId == root then 1 else 0) + (if root == ALL then 1 else 0)
  }

  lemma OneMoreWithStatus(rows: map<string, Row>, k: string, r: Row, status: Status)
    requires k !in rows
    ensures |WithStatus(rows[k := r], status)| == |WithStatus(rows, status)| + if r.status == status then 1 else 0
  {
    var one := if r.status == status then {k} else {};
    assert WithStatus(rows[k := r], status) == WithStatus(rows, status) + one;
  }

  lemma OneMoreWithRoot(rows: map<string, Row>, k: string, r: Row, root: string, status: Status)
    requires k !in rows
    ensures |WithRoot(rows[k := r], root, status)| ==
            |WithRoot(rows, root, status)| + if r.status == status && r.rootId == root then 1 else 0
  {
    var more := rows[k := r];
    var one, all := if r.status == status && r.rootId == root then {k} else {}, WithRoot(more, root, status);
    forall x ensures x in all <==> x in WithRoot(rows, root, status) + one {
      assert x != k ==> (x in more <==> x in rows);
    }
    assert all == WithRoot(rows, root, status) + one;
  }

  lemma OneMoreRow(rows: map<string, Row>, k: string, r: Row, root: string, status: Status)
    requires k !in rows
    ensures Actual(rows[k := r], root, status) == Actual(rows, root, status) + Weight(r, root, status)
  {
    hide WithStatus, WithRoot;
    OneMoreWithStatus(rows, k, r, status);
    OneMoreWithRoot(rows, k, r, root, status);
  }

  lemma OneRowLess(rows: map<string, Row>, k: string, root: string, status: Status)
    requires k in rows
    ensures Actual(rows, root, status) == Actual(rows - {k}, root, status) + Weight(rows[k], root, status)
  {
    assert (rows - {k})[k := rows[k]] == rows;
    OneMoreRow(rows - {k}, k, rows[k], root, status);
  }

  lemma InsertKeepsCounts(c: Counts, rows: map<string, Row>, k: string, r: Row)
    requires Agree(c, rows) && k !in rows
    ensures Agree(AfterInsert(c, r), rows[k := r])
  {
    forall root, status ensures Count(AfterInsert(c, r), root, status) == Actual(rows[k := r], root, status) {
      OneMoreRow(rows, k, r, root, status);
    }
  }

  lemma DeleteKeepsCounts(c: Counts, rows: map<string, Row>, k: string)
    requires Agree(c, rows) && k in rows
    ensures Agree(AfterDelete(c, rows[k]), rows - {k})
  {
    var r := rows[k];
    OneRowLess(rows, k, ALL, r.status);
    OneRowLess(rows, k, r.rootId, r.status);
    forall root, status ensures Count(AfterDelete(c, r), root, status) == Actual(rows - {k}, root, status) {
      OneRowLess(rows, k, root, status);
    }
  }

  lemma UpdateKeepsCounts(c: Counts, rows: map<string, Row>, k: string, r': Row)
    requires Agree(c, rows) && k in rows
    ensures Agree(AfterUpdate(c, rows[k], r'), rows[k := r'])
  {
    var r := rows[k];
    assert (rows - {k})[k := r'] == rows[k := r'];
    if r.status != r'.status || r.rootId != r'.rootId {
      DeleteKeepsCounts(c, rows, k);
      InsertKeepsCounts(AfterDelete(c, r), rows - {k}, k, r');
    } else {
      forall root, status ensures Actual(rows, root, status) == Actual(rows[k := r'], root, status) {
        OneRowLess(rows, k, root, status);
        OneMoreRow(rows - {k}, k, r', root, status);
      }
    }
  }

  // ---------------------------------------------------------------- from table to table

  /** The rows once the statement has got to key `k`. */
  function RowsAt(rows: map<string, Row>, rows': map<string, Row>, k: string): map<string, Row> {
    if k in rows' then rows[k := rows'[k]] else rows - {k}
  }

  /** What the trigger for key `k` makes of the counters. */
  function CountsAt(c: Counts, rows: map<string, Row>, rows': map<string, Row>, k: string): Counts {
    if k in rows && k in rows' then AfterUpdate(c, rows[k], rows'[k])
    else if k in rows then AfterDelete(c, rows[k])
    else if k in rows' then AfterInsert(c, rows'[k])
    else c
  }

  /** The triggers of a statement that leads from `rows` to `rows'`, fired for the keys `ks` one by one in some order. */
  ghost function Fired(c: Counts, rows: map<string, Row>, rows': map<string, Row>, ks: set<string>): Counts
    decreases |ks|
  {
    if ks == {} then c
    else
      var k :| k in ks;
      Fired(CountsAt(c, rows, rows', k), RowsAt(rows, rows', k), rows', ks - {k})
  }

  lemma TriggerAgrees(c: Counts, rows: map<string, Row>, rows': map<string, Row>, k: string)
    requires Agree(c, rows)
    ensures Agree(CountsAt(c, rows, rows', k), RowsAt(rows, rows', k))
  {
    hide Agree, AfterInsert, AfterUpdate, AfterDelete;
    if k in rows && k in rows' {
      UpdateKeepsCounts(c, rows, k, rows'[k]);
    } else if k in rows {
      DeleteKeepsCounts(c, rows, k);
    } else if k in rows' {
      InsertKeepsCounts(c, rows, k, rows'[k]);
    } else {
      assert rows - {k} == rows;
    }
  }

  /** The keys at which two tables of rows differ. */
  ghost predicate DifferWithin(rows: map<string, Row>, rows': map<string, Row>, ks: set<string>) {
    forall k :: k !in ks ==> (k in rows <==> k in rows') && (k in rows ==> rows[k] == rows'[k])
  }

  lemma FewerDiffer(rows: map<string, Row>, rows': map<string, Row>, ks: set<string>, k: string)
    requires DifferWithin(rows, rows', ks)
    ensures DifferWithin(RowsAt(rows, rows', k), rows', ks - {k})
    ensures ks == {} ==> rows == rows'
  {
  }

  /** Whatever statement it was, and in whatever order its triggers fired, the counters agree with the new rows. */
  lemma {:induction false} FiredAgrees(c: Counts, rows: map<string, Row>, rows': map<string, Row>, ks: set<string>)
    requires Agree(c, rows) && DifferWithin(rows, rows', ks)
    ensures Agree(Fired(c, rows, rows', ks), rows')
    decreases |ks|
  {
    hide Agree, CountsAt, RowsAt, DifferWithin;
    if ks == {} {
      FewerDiffer(rows, rows', ks, "");
    } else {
      var k :| k in ks && Fired(c, rows, rows', ks) == Fired(CountsAt(c, rows, rows', k), RowsAt(rows, rows', k), rows', ks - {k});
      FewerDiffer(rows, rows', ks, k);
      TriggerAgrees(c, rows, rows', k);
      FiredAgrees(CountsAt(c, rows, rows', k), RowsAt(rows, rows', k), rows', ks - {k});
    }
  }

  lemma NoRowsNoCounts()
    ensures Agree(map[], map[])
  {
  }

  // ---------------------------------------------------------------- the totals

  /** The "*" entries count the rows of a status exactly when no row of that status has the root "*". */
  lemma TotalIsExact(c: Counts, rows: map<string, Row>, status: Status)
    requires Agree(c, rows)
    ensures Count(c, ALL, status) >= |WithStatus(rows, status)|
    ensures Count(c, ALL, status) == |WithStatus(rows, status)| <==>
            forall k :: k in rows && rows[k].status == status ==> rows[k].rootId != ALL
  {
    if WithRoot(rows, ALL, status) == {} {
      assert forall k :: k in rows && rows[k].status == status && rows[k].rootId == ALL ==> k in WithRoot(rows, ALL, status);
    } else {
      var k :| k in WithRoot(rows, ALL, status);
    }
  }

  /** The "*" entries add up to the size of the table exactly when no row has the root "*". */
  lemma TotalsAddUp(c: Counts, rows: map<string, Row>)
    requires Agree(c, rows)
    ensures Count(c, ALL, Queued) + Count(c, ALL, Leased) + Count(c, ALL, Done) + Count(c, ALL, Error) == |rows| <==>
            forall k :: k in rows ==> rows[k].rootId != ALL
  {
    TotalIsExact(c, rows, Queued);
    TotalIsExact(c, rows, Leased);
    TotalIsExact(c, rows, Done);
    TotalIsExact(c, rows, Error);
    StatusesPartition(rows);
    forall k | k in rows
      ensures rows[k].status == Queued || rows[k].status == Leased || rows[k].status == Done || rows[k].status == Error
    {
    }
    hide WithStatus, WithRoot;
  }

  lemma StatusesPartition(rows: map<string, Row>)
    ensures |WithStatus(rows, Queued)| + |WithStatus(rows, Leased)| + |WithStatus(rows, Done)| + |WithStatus(rows, Error)|
            == |rows|
  {
    forall k, s ensures k in WithStatus(rows, s) <==> k in rows.Keys && rows[k].status == s {}
    hide WithStatus;
    var q, l := WithStatus(rows, Queued), WithStatus(rows, Leased);
    var d, e := WithStatus(rows, Done), WithStatus(rows, Error);
    FourParts(q, l, d, e, rows.Keys);
  }

  lemma FourParts(a: set<string>, b: set<string>, c: set<string>, d: set<string>, all: set<string>)
    requires forall k :: k in a <==> k in all && k !in b && k !in c && k !in d
    requires forall k :: k in b <==> k in all && k !in a && k !in c && k !in d
    requires forall k :: k in c <==> k in all && k !in a && k !in b && k !in d
    requires forall k :: k in d <==> k in all && k !in a && k !in b && k !in c
    ensures |a| + |b| + |c| + |d| == |all|
  {
    var ab, cd := a + b, c + d;
    assert |ab| == |a| + |b| && |cd| == |c| + |d|;
    assert all == ab + cd && |ab + cd| == |ab| + |cd|;
  }
}
