/** The keyset-paged scan of app/mgtsvc/agent_table.go and the completion of its tasks. */
module TableScan {
  import Decimal
  import Sets

  type Id = Decimal.Int64

  const LIMIT := 200

  /** One row of substance_task. */
  datatype Row = Row(minion: Id, broker: Id, task: Id, executed: bool, failed: bool, reason: string)

  predicate Wanted(r: Row, bid: Id, tid: Id) {
    r.task == tid && r.broker == bid && !r.executed
  }

  /** The minions the scan's query can select. */
  function Eligible(rows: seq<Row>, bid: Id, tid: Id): set<Id> {
    set i | 0 <= i < |rows| && Wanted(rows[i], bid, tid) :: rows[i].minion
  }

  ghost predicate Ascending(s: seq<Id>) {
    forall i, j | 0 <= i < j < |s| :: s[i] < s[j]
  }

  /** SELECT DISTINCT minion_id ... WHERE minion_id > last ORDER BY minion_id LIMIT 200. */
  ghost predicate IsPage(mids: seq<Id>, s: set<Id>, last: int) {
    && Ascending(mids) && |mids| <= LIMIT
    && (forall i | 0 <= i < |mids| :: mids[i] in s && mids[i] > last)
    && (forall x | x in s && x > last :: x in mids || (|mids| == LIMIT && x > mids[LIMIT - 1]))
  }

  method Least(s: set<Id>) returns (m: Id)
    requires s != {}
    ensures m in s && forall x | x in s :: m <= x
  {
    m :| m in s;
    var todo := s - {m};
    while todo != {}
      invariant todo <= s && m in s && forall x | x in s && x !in todo :: m <= x
      decreases |todo|
    {
      var x :| x in todo;
      if x < m {
        m := x;
      }
      todo := todo - {x};
    }
  }

  method Query(s: set<Id>, last: int) returns (mids: seq<Id>)
    ensures IsPage(mids, s, last)
    ensures |mids| <= 200 && (|mids| < 200 ==> forall x | x in s && x > last :: x in mids)
  {
    mids := [];
    var todo := set x | x in s && x > last;
    while todo != {} && |mids| < LIMIT
      invariant todo <= s && Ascending(mids) && |mids| <= LIMIT
      invariant forall x | x in todo :: x > last && forall i | 0 <= i < |mids| :: mids[i] < x
      invariant forall i | 0 <= i < |mids| :: mids[i] in s && mids[i] > last
      invariant forall x | x in s && x > last :: x in mids || x in todo
      decreases |todo|
    {
      var m := Least(todo);
      mids := mids + [m];
      todo := todo - {m};
    }
  }

  /** Rows are only ever completed while the scan runs. */
  ghost predicate Shrinking(eligible: nat -> set<Id>) {
    forall k: nat :: eligible(k + 1) <= eligible(k)
  }

  ghost predicate Throughout(eligible: nat -> set<Id>, x: Id, upto: nat) {
    forall k: nat | k <= upto :: x in eligible(k)
  }

  function Last(s: seq<Id>): int {
    if s == [] then 0 else s[|s| - 1]
  }

  lemma {:induction false} ShrinksTo(eligible: nat -> set<Id>, k: nat)
    requires Shrinking(eligible)
    ensures eligible(k) <= eligible(0)
  {
    if k > 0 {
      ShrinksTo(eligible, k - 1);
      assert eligible(k - 1 + 1) <= eligible(k - 1);
    }
  }

  function Beyond(s: set<Id>, last: int): set<Id> {
    set x | x in s && x > last
  }

  lemma PageShrinks(a: set<Id>, b: set<Id>, last: int, mids: seq<Id>)
    requires IsPage(mids, a, last) && mids != [] && b <= a
    ensures |Beyond(b, Last(mids))| < |Beyond(a, last)|
  {
    var x, y := Beyond(b, Last(mids)), Beyond(a, last);
    assert mids[0] in y && mids[0] > last && mids[|mids| - 1] >= mids[0];
    assert x <= y - {mids[0]};
    Sets.SubsetSize(x, y - {mids[0]});
  }

  lemma AppendPage(submitted: seq<Id>, mids: seq<Id>, s: set<Id>)
    requires Ascending(submitted) && IsPage(mids, s, Last(submitted))
    ensures Ascending(submitted + mids)
  {
    var all := submitted + mids;
    forall i, j | 0 <= i < j < |all| ensures all[i] < all[j] {
      if i < |submitted| <= j {
        assert submitted[i] <= Last(submitted) < mids[j - |submitted|];
      }
    }
  }

  ghost predicate FromStart(submitted: seq<Id>, eligible: nat -> set<Id>) {
    forall i | 0 <= i < |submitted| :: submitted[i] > 0 && submitted[i] in eligible(0)
  }

  /** What stayed eligible so far and is not beyond the last id has been submitted. */
  ghost predicate Covers(submitted: seq<Id>, eligible: nat -> set<Id>, pages: nat) {
    forall x: Id | 0 < x <= Last(submitted) && Throughout(eligible, x, pages) :: x in submitted
  }

  lemma PageFromStart(submitted: seq<Id>, mids: seq<Id>, eligible: nat -> set<Id>, k: nat)
    requires Shrinking(eligible) && FromStart(submitted, eligible)
    requires Last(submitted) >= 0 && IsPage(mids, eligible(k), Last(submitted))
    ensures FromStart(submitted + mids, eligible)
  {
    ShrinksTo(eligible, k);
  }

  lemma PageCovers(submitted: seq<Id>, mids: seq<Id>, eligible: nat -> set<Id>, k: nat)
    requires Covers(submitted, eligible, k) && IsPage(mids, eligible(k), Last(submitted)) && mids != []
    ensures Covers(submitted + mids, eligible, k + 1)
  {
    var all := submitted + mids;
    forall x: Id | 0 < x <= Last(all) && Throughout(eligible, x, k + 1) ensures x in all {
      assert Throughout(eligible, x, k);
      assert x in eligible(k);
    }
  }

  /**
   scanTableTask: eligible(k) is what the k-th query can select and scans(k) whether it answers; a
   failed query reads as an empty page. The submitted ids strictly increase, are positive and were
   eligible at the start; every positive id that stayed eligible is submitted, unless a query failed
   before the scan reached it.
   */
  method ScanTableTask(eligible: nat -> set<Id>, scans: nat -> bool) returns (submitted: seq<Id>, pages: nat)
    requires Shrinking(eligible)
    ensures Ascending(submitted)
    ensures forall i | 0 <= i < |submitted| :: submitted[i] > 0 && submitted[i] in eligible(0)
    ensures forall x: Id | x > 0 && Throughout(eligible, x, pages) ::
      x in submitted || (!scans(pages) && x > Last(submitted))
    ensures forall k: nat | k < pages :: scans(k)
  {
    submitted, pages := [], 0;
    var lastID: int := 0;
    while true
      invariant lastID == Last(submitted) >= 0 && Ascending(submitted)
      invariant FromStart(submitted, eligible) && Covers(submitted, eligible, pages)
      invariant forall k: nat | k < pages :: scans(k)
      decreases |Beyond(eligible(pages), lastID)|
    {
      var mids := [];
      if scans(pages) {
        mids := Query(eligible(pages), lastID);
      }
      var size := |mids|;
      if size == 0 {
        return;
      }
      AppendPage(submitted, mids, eligible(pages));
      PageFromStart(submitted, mids, eligible, pages);
      PageCovers(submitted, mids, eligible, pages);
      PageShrinks(eligible(pages), eligible(pages + 1), lastID, mids);
      lastID := mids[size - 1];
      submitted := submitted + mids;
      pages := pages + 1;
    }
  }

  /** No id completes before it has been submitted. */
  ghost predicate OnlySubmittedComplete(eligible: nat -> set<Id>, submitted: seq<Id>, pages: nat) {
    forall x: Id | x in eligible(0) && x !in submitted :: Throughout(eligible, x, pages)
  }

  /**
   If every query answers and only submitted ids complete meanwhile, then whatever the page
   boundaries the submitted ids are exactly the positive ids eligible at the start, each once.
   */
  method ScanAll(eligible: nat -> set<Id>, scans: nat -> bool) returns (submitted: seq<Id>, pages: nat)
    requires Shrinking(eligible) && forall k: nat :: scans(k)
    ensures Ascending(submitted)
    ensures OnlySubmittedComplete(eligible, submitted, pages) ==>
      forall x: Id :: x in submitted <==> x in eligible(0) && x > 0
  {
    submitted, pages := ScanTableTask(eligible, scans);
  }

  // ---------------------------------------------------------------------------------------------
  // Completion
  // ---------------------------------------------------------------------------------------------

  /** tableTask.Run marks the open rows of its minion executed, with the error if there was one. */
  function Completed(r: Row, bid: Id, tid: Id, mid: Id, err: seq<string>): Row {
    if Wanted(r, bid, tid) && r.minion == mid then
      if err == [] then r.(executed := true) else r.(executed := true, failed := true, reason := err[0])
    else r
  }

  method Complete(rows: array<Row>, bid: Id, tid: Id, mid: Id, err: seq<string>)
    modifies rows
    ensures forall i | 0 <= i < rows.Length :: rows[i] == Completed(old(rows[i]), bid, tid, mid, err)
    ensures forall i | 0 <= i < rows.Length ::
      var r := old(rows[i]);
      var mine := r.broker == bid && r.task == tid && r.minion == mid && !r.executed;
      rows[i] == if !mine then r
                 else if err == [] then Row(r.minion, r.broker, r.task, true, r.failed, r.reason)
                 else Row(r.minion, r.broker, r.task, true, true, err[0])
  {
    for i := 0 to rows.Length
      invariant forall j | 0 <= j < i :: rows[j] == Completed(old(rows[j]), bid, tid, mid, err)
      invariant forall j | i <= j < rows.Length :: rows[j] == old(rows[j])
    {
      var r := rows[i];
      if r.broker == bid && r.task == tid && r.minion == mid && !r.executed {
        r := r.(executed := true);
        if err != [] {
          r := r.(failed := true, reason := err[0]);
        }
        rows[i] := r;
      }
    }
  }

  /** What the scan can select: the minions of the task's open rows of this broker. */
  lemma EligibleIs(rows: seq<Row>, bid: Id, tid: Id, mid: Id)
    ensures mid in Eligible(rows, bid, tid) <==>
      exists i | 0 <= i < |rows| :: rows[i].minion == mid && rows[i].broker == bid && rows[i].task == tid && !rows[i].executed
  {
    if i :| 0 <= i < |rows| && rows[i].minion == mid && rows[i].broker == bid && rows[i].task == tid && !rows[i].executed {
      assert Wanted(rows[i], bid, tid);
    }
  }

  /** Completing a task takes exactly its minion out of the scan, and other scans are not affected. */
  lemma CompletionRemovesOne(rows: seq<Row>, rows': seq<Row>, bid: Id, tid: Id, mid: Id, err: seq<string>, b: Id, t: Id)
    requires |rows'| == |rows|
    requires forall i | 0 <= i < |rows| :: rows'[i] == Completed(rows[i], bid, tid, mid, err)
    ensures Eligible(rows', b, t) == Eligible(rows, b, t) - if b == bid && t == tid then {mid} else {}
  {
    var gone := if b == bid && t == tid then {mid} else {};
    forall x | x in Eligible(rows, b, t) - gone ensures x in Eligible(rows', b, t) {
      var i :| 0 <= i < |rows| && Wanted(rows[i], b, t) && rows[i].minion == x;
      assert Wanted(rows'[i], b, t) && rows'[i].minion == x;
    }
    forall x | x in Eligible(rows', b, t) ensures x in Eligible(rows, b, t) - gone {
      var i :| 0 <= i < |rows'| && Wanted(rows'[i], b, t) && rows'[i].minion == x;
      assert Wanted(rows[i], b, t) && rows[i].minion == x;
    }
  }
}
