/**
 Configuration reconciliation: the diff of app/internal/param/diff.go and the bounded
 synchronisation loop of app/mgtsvc/agent_rsync.go.
 */
module TaskSync {
  import opened Wrappers
  import Decimal
  import Sets

  type Int64 = Decimal.Int64

  /** A wanted configuration; `minion` is 0 for a shared one. */
  datatype Substance = Substance(id: Int64, name: string, hash: string, chunk: seq<int>, priority: int, minion: Int64)

  /** One entry of an agent's report; uptime 0 is the zero time. */
  datatype TaskStatus = TaskStatus(
    id: Int64, dialect: bool, name: string, status: string, hash: string, uptime: int,
    origin: string, link: string, cause: string, runners: seq<int>)

  datatype TaskChunk = TaskChunk(id: Int64, name: string, dialect: bool, hash: string, chunk: seq<int>, priority: int)

  datatype TaskDiff = TaskDiff(removes: seq<Int64>, updates: seq<TaskChunk>)

  type TaskReport = seq<TaskStatus>

  const TUNNEL := "tunnel"

  // ---------------------------------------------------------------------------------------------
  // What Diff computes
  // ---------------------------------------------------------------------------------------------

  /** The report by id; the last entry of an id wins. */
  function IdMap(report: TaskReport): map<Int64, TaskStatus> {
    if report == [] then map[]
    else
      var last := report[|report| - 1];
      IdMap(report[..|report| - 1])[last.id := last]
  }

  function Chunk(sub: Substance, mid: Int64): TaskChunk {
    TaskChunk(sub.id, sub.name, sub.minion == mid, sub.hash, sub.chunk, sub.priority)
  }

  predicate Matched(hm: map<Int64, TaskStatus>, sub: Substance) {
    sub.id in hm && hm[sub.id].hash == sub.hash
  }

  /** The walk over the substances, which consumes the map. */
  function Updates(mid: Int64, subs: seq<Substance>, hm: map<Int64, TaskStatus>): seq<TaskChunk>
    decreases |subs|
  {
    if subs == [] then []
    else
      (if Matched(hm, subs[0]) then [] else [Chunk(subs[0], mid)])
      + Updates(mid, subs[1..], hm - {subs[0].id})
  }

  function Ids(subs: seq<Substance>): set<Int64> {
    set i | 0 <= i < |subs| :: subs[i].id
  }

  function RemoveIds(subs: seq<Substance>, hm: map<Int64, TaskStatus>): set<Int64> {
    set id | id in hm && id !in Ids(subs) && hm[id].origin == TUNNEL
  }

  ghost predicate NoRepeat(s: seq<Int64>) {
    forall i, j | 0 <= i < j < |s| :: s[i] != s[j]
  }

  /** `Removes` comes out of a Go map iteration, so its order is not determined. */
  ghost predicate IsDiff(diff: TaskDiff, mid: Int64, report: TaskReport, subs: seq<Substance>) {
    && diff.updates == Updates(mid, subs, IdMap(report))
    && NoRepeat(diff.removes)
    && forall id :: id in diff.removes <==> id in RemoveIds(subs, IdMap(report))
  }

  predicate NotModified(diff: TaskDiff) {
    |diff.removes| == 0 && |diff.updates| == 0
  }

  method IDMap(report: TaskReport) returns (hm: map<Int64, TaskStatus>)
    ensures hm == IdMap(report)
  {
    hm := map[];
    for i := 0 to |report|
      invariant hm == IdMap(report[..i])
    {
      hm := hm[report[i].id := report[i]];
      assert report[..i + 1][..i] == report[..i];
    }
    assert report[..|report|] == report;
  }

  method Diff(mid: Int64, report: TaskReport, subs: seq<Substance>) returns (diff: TaskDiff)
    ensures IsDiff(diff, mid, report, subs)
  {
    var hm := IDMap(report);
    var updates, rest := Consume(mid, subs, hm);
    var removes := Tunnels(rest);
    diff := TaskDiff(removes, updates);
  }

  /** The first loop of Diff. */
  method Consume(mid: Int64, subs: seq<Substance>, all: map<Int64, TaskStatus>)
    returns (updates: seq<TaskChunk>, hm: map<Int64, TaskStatus>)
    ensures updates == Updates(mid, subs, all)
    ensures hm == all - Ids(subs)
  {
    hm, updates := all, [];
    assert subs[0..] == subs;
    for i := 0 to |subs|
      invariant Leftover(subs[i..], hm) == Leftover(subs, all)
      invariant updates + Updates(mid, subs[i..], hm) == Updates(mid, subs, all)
    {
      var sub := subs[i];
      ConsumeOne(mid, subs, i, hm, updates);
      var ok := sub.id in hm;
      var same := ok && hm[sub.id].hash == sub.hash;
      hm := hm - {sub.id};
      if !same {
        updates := updates + [TaskChunk(sub.id, sub.name, sub.minion == mid, sub.hash, sub.chunk, sub.priority)];
      }
    }
    LeftoverIs(subs, all);
    assert subs[|subs|..] == [];
  }

  function Leftover(subs: seq<Substance>, hm: map<Int64, TaskStatus>): map<Int64, TaskStatus>
    decreases |subs|
  {
    if subs == [] then hm else Leftover(subs[1..], hm - {subs[0].id})
  }

  lemma {:induction false} LeftoverIs(subs: seq<Substance>, hm: map<Int64, TaskStatus>)
    ensures Leftover(subs, hm) == hm - Ids(subs)
    decreases |subs|
  {
    if subs != [] {
      LeftoverIs(subs[1..], hm - {subs[0].id});
      assert Ids(subs) == {subs[0].id} + Ids(subs[1..]) by {
        forall id | id in Ids(subs) ensures id in {subs[0].id} + Ids(subs[1..]) {
          var k :| 0 <= k < |subs| && subs[k].id == id;
          assert k > 0 ==> subs[1..][k - 1].id == id;
        }
        forall id | id in Ids(subs[1..]) ensures id in Ids(subs) {
          var k :| 0 <= k < |subs[1..]| && subs[1..][k].id == id;
          assert subs[k + 1].id == id;
        }
      }
    }
  }

  lemma ConsumeOne(mid: Int64, subs: seq<Substance>, i: nat, hm: map<Int64, TaskStatus>, done: seq<TaskChunk>)
    requires i < |subs|
    ensures var here := if Matched(hm, subs[i]) then [] else [Chunk(subs[i], mid)];
      done + Updates(mid, subs[i..], hm) == (done + here) + Updates(mid, subs[i + 1..], hm - {subs[i].id})
    ensures Leftover(subs[i..], hm) == Leftover(subs[i + 1..], hm - {subs[i].id})
  {
    assert subs[i..][1..] == subs[i + 1..];
  }

  method Tunnels(hm: map<Int64, TaskStatus>) returns (removes: seq<Int64>)
    ensures NoRepeat(removes)
    ensures forall id :: id in removes <==> id in hm && hm[id].origin == TUNNEL
  {
    removes := [];
    var todo := hm.Keys;
    while todo != {}
      invariant todo <= hm.Keys
      invariant NoRepeat(removes)
      invariant forall id :: id in removes <==> id in hm && id !in todo && hm[id].origin == TUNNEL
      decreases |todo|
    {
      var id :| id in todo;
      if hm[id].origin == TUNNEL {
        removes := removes + [id];
      }
      todo := todo - {id};
    }
  }

  // ---------------------------------------------------------------------------------------------
  // Diff is exact
  // ---------------------------------------------------------------------------------------------

  ghost predicate Distinct(subs: seq<Substance>) {
    forall i, j | 0 <= i < j < |subs| :: subs[i].id != subs[j].id
  }

  function Unmatched(subs: seq<Substance>, hm: map<Int64, TaskStatus>): seq<Substance> {
    if subs == [] then []
    else (if Matched(hm, subs[0]) then [] else [subs[0]]) + Unmatched(subs[1..], hm)
  }

  function Chunks(subs: seq<Substance>, mid: Int64): seq<TaskChunk> {
    if subs == [] then [] else [Chunk(subs[0], mid)] + Chunks(subs[1..], mid)
  }

  lemma {:induction false} ChunksAt(subs: seq<Substance>, mid: Int64, k: nat)
    requires k < |subs| || k < |Chunks(subs, mid)|
    ensures |Chunks(subs, mid)| == |subs| && Chunks(subs, mid)[k] == Chunk(subs[k], mid)
  {
    if |subs| > 1 {
      ChunksAt(subs[1..], mid, if k > 0 then k - 1 else 0);
    }
  }

  lemma {:induction false} UnmatchedIgnores(subs: seq<Substance>, hm: map<Int64, TaskStatus>, id: Int64)
    requires id !in Ids(subs)
    ensures Unmatched(subs, hm - {id}) == Unmatched(subs, hm)
  {
    if subs != [] {
      assert subs[0].id in Ids(subs);
      assert Ids(subs[1..]) <= Ids(subs) by {
        assert forall i | 0 <= i < |subs[1..]| :: subs[1..][i] == subs[i + 1];
      }
      UnmatchedIgnores(subs[1..], hm, id);
    }
  }

  /** With distinct ids the consuming walk sends exactly the unmatched substances, in their order. */
  lemma {:induction false} UpdatesAreUnmatched(mid: Int64, subs: seq<Substance>, hm: map<Int64, TaskStatus>)
    requires Distinct(subs)
    ensures Updates(mid, subs, hm) == Chunks(Unmatched(subs, hm), mid)
  {
    if subs != [] {
      UpdatesAreUnmatched(mid, subs[1..], hm - {subs[0].id});
      UnmatchedIgnores(subs[1..], hm, subs[0].id);
      var rest := Unmatched(subs[1..], hm);
      if Matched(hm, subs[0]) {
        assert Unmatched(subs, hm) == rest;
        assert Updates(mid, subs, hm) == Updates(mid, subs[1..], hm - {subs[0].id});
      } else {
        assert Unmatched(subs, hm)[1..] == rest;
      }
    }
  }

  ghost predicate AllMatched(hm: map<Int64, TaskStatus>, subs: seq<Substance>) {
    forall i | 0 <= i < |subs| :: Matched(hm, subs[i])
  }

  lemma {:induction false} MatchedSendsNothing(mid: Int64, subs: seq<Substance>, hm: map<Int64, TaskStatus>)
    requires Distinct(subs) && AllMatched(hm, subs)
    ensures Updates(mid, subs, hm) == []
  {
    if subs != [] {
      var rest, hm' := subs[1..], hm - {subs[0].id};
      forall i | 0 <= i < |rest| ensures Matched(hm', rest[i]) {
        assert rest[i] == subs[i + 1] && Matched(hm, subs[i + 1]);
      }
      MatchedSendsNothing(mid, rest, hm');
    }
  }

  lemma {:induction false} NothingSentMatched(mid: Int64, subs: seq<Substance>, hm: map<Int64, TaskStatus>)
    requires Updates(mid, subs, hm) == []
    ensures Distinct(subs) && AllMatched(hm, subs)
  {
    if subs != [] {
      var rest, hm' := subs[1..], hm - {subs[0].id};
      assert Matched(hm, subs[0]);
      NothingSentMatched(mid, rest, hm');
      forall i | 0 < i < |subs| ensures Matched(hm, subs[i]) && subs[0].id != subs[i].id {
        assert subs[i] == rest[i - 1] && Matched(hm', rest[i - 1]);
      }
      forall i, j | 0 <= i < j < |subs| ensures subs[i].id != subs[j].id {
        assert i > 0 ==> rest[i - 1].id != rest[j - 1].id;
      }
    }
  }

  /** The walk sends nothing exactly when ids are distinct and every substance is matched. */
  lemma NoUpdatesIff(mid: Int64, subs: seq<Substance>, hm: map<Int64, TaskStatus>)
    ensures Updates(mid, subs, hm) == [] <==> Distinct(subs) && AllMatched(hm, subs)
  {
    if Updates(mid, subs, hm) == [] {
      NothingSentMatched(mid, subs, hm);
    } else if Distinct(subs) && AllMatched(hm, subs) {
      MatchedSendsNothing(mid, subs, hm);
    }
  }

  /** Every substance has a same-hash entry, and every entry that came through the tunnel is wanted. */
  ghost predicate InSync(report: TaskReport, subs: seq<Substance>) {
    && AllMatched(IdMap(report), subs)
    && (forall id | id in IdMap(report) && IdMap(report)[id].origin == TUNNEL :: id in Ids(subs))
  }

  /** A diff is empty exactly when the substance ids are distinct and report and substances are in sync. */
  lemma EmptyDiffIff(diff: TaskDiff, mid: Int64, report: TaskReport, subs: seq<Substance>)
    requires IsDiff(diff, mid, report, subs)
    ensures NotModified(diff) <==> Distinct(subs) && InSync(report, subs)
  {
    var hm := IdMap(report);
    NoUpdatesIff(mid, subs, hm);
    if |diff.removes| > 0 {
      assert diff.removes[0] in RemoveIds(subs, hm);
    }
    if !(forall id | id in hm && hm[id].origin == TUNNEL :: id in Ids(subs)) {
      var id :| id in hm && hm[id].origin == TUNNEL && id !in Ids(subs);
      assert id in RemoveIds(subs, hm);
      assert id in diff.removes;
    }
  }

  lemma {:induction false} UpdateIdsWanted(mid: Int64, subs: seq<Substance>, hm: map<Int64, TaskStatus>, k: nat)
    requires k < |Updates(mid, subs, hm)|
    ensures exists i | 0 <= i < |subs| :: Updates(mid, subs, hm)[k] == Chunk(subs[i], mid)
  {
    var head := if Matched(hm, subs[0]) then [] else [Chunk(subs[0], mid)];
    if k < |head| {
      assert Updates(mid, subs, hm)[k] == Chunk(subs[0], mid);
    } else {
      UpdateIdsWanted(mid, subs[1..], hm - {subs[0].id}, k - |head|);
      var i :| 0 <= i < |subs[1..]| && Updates(mid, subs[1..], hm - {subs[0].id})[k - |head|] == Chunk(subs[1..][i], mid);
      assert subs[1..][i] == subs[i + 1];
    }
  }

  /** Only unwanted tunnel tasks are removed, only wanted ones are updated, so no id is in both. */
  lemma RemovesAndUpdatesApart(diff: TaskDiff, mid: Int64, report: TaskReport, subs: seq<Substance>, k: nat)
    requires IsDiff(diff, mid, report, subs) && k < |diff.updates|
    ensures diff.updates[k].id in Ids(subs) && diff.updates[k].id !in diff.removes
    ensures forall id | id in diff.removes :: id in IdMap(report) && IdMap(report)[id].origin == TUNNEL && id !in Ids(subs)
  {
    UpdateIdsWanted(mid, subs, IdMap(report), k);
  }

  // ---------------------------------------------------------------------------------------------
  // Diff is sufficient
  // ---------------------------------------------------------------------------------------------

  function SentIds(updates: seq<TaskChunk>): set<Int64> {
    set i | 0 <= i < |updates| :: updates[i].id
  }

  /** The agent did what the diff says, as seen in its next report: nothing else about hash or origin changed. */
  ghost predicate Carried(diff: TaskDiff, report: TaskReport, next: TaskReport) {
    var hm, hm' := IdMap(report), IdMap(next);
    && (forall k | 0 <= k < |diff.updates| ::
          diff.updates[k].id in hm' && hm'[diff.updates[k].id].hash == diff.updates[k].hash)
    && (forall id | id !in SentIds(diff.updates) ::
          (id in hm' <==> id in hm && id !in diff.removes)
          && (id in hm' ==> hm'[id].hash == hm[id].hash && hm'[id].origin == hm[id].origin))
  }

  lemma {:induction false} UnmatchedSent(subs: seq<Substance>, hm: map<Int64, TaskStatus>, i: nat)
    requires i < |subs|
    ensures Matched(hm, subs[i]) || subs[i] in Unmatched(subs, hm)
  {
    if i > 0 {
      UnmatchedSent(subs[1..], hm, i - 1);
    }
  }

  lemma {:induction false} UnmatchedSound(subs: seq<Substance>, hm: map<Int64, TaskStatus>, k: nat)
    requires k < |Unmatched(subs, hm)|
    ensures exists i | 0 <= i < |subs| :: subs[i] == Unmatched(subs, hm)[k] && !Matched(hm, subs[i])
  {
    if !Matched(hm, subs[0]) && k == 0 {
      assert subs[0] == Unmatched(subs, hm)[k];
    } else {
      var k' := if Matched(hm, subs[0]) then k else k - 1;
      UnmatchedSound(subs[1..], hm, k');
      var i :| 0 <= i < |subs[1..]| && subs[1..][i] == Unmatched(subs[1..], hm)[k'] && !Matched(hm, subs[1..][i]);
      assert subs[i + 1] == Unmatched(subs, hm)[k];
    }
  }

  // ---------------------------------------------------------------------------------------------
  // Diff in terms of the report's entries and the hashes
  // ---------------------------------------------------------------------------------------------

  /** Entry j is the last one of its id. */
  ghost predicate LastEntry(report: TaskReport, j: nat, id: Int64) {
    && j < |report| && report[j].id == id
    && forall k | j < k < |report| :: report[k].id != id
  }

  lemma {:induction false} IdMapIsLast(report: TaskReport, id: Int64)
    ensures id in IdMap(report) <==> exists j: nat :: LastEntry(report, j, id)
    ensures forall j: nat | LastEntry(report, j, id) :: id in IdMap(report) && IdMap(report)[id] == report[j]
    decreases |report|
  {
    if report != [] {
      var n, front := |report| - 1, report[..|report| - 1];
      IdMapIsLast(front, id);
      if report[n].id == id {
        assert LastEntry(report, n, id);
      } else {
        forall j: nat ensures LastEntry(report, j, id) <==> LastEntry(front, j, id) {
          if j < n && LastEntry(front, j, id) {
            assert forall k | j < k < n :: report[k] == front[k];
          }
          if LastEntry(report, j, id) {
            assert front[j] == report[j];
            assert forall k | j < k < n :: front[k] == report[k];
          }
        }
      }
    }
  }

  /** The last entry of the substance's id has the substance's hash. */
  lemma MatchedIs(report: TaskReport, sub: Substance)
    ensures Matched(IdMap(report), sub) <==> exists j: nat :: LastEntry(report, j, sub.id) && report[j].hash == sub.hash
  {
    IdMapIsLast(report, sub.id);
  }

  lemma ChunkOf(sub: Substance, mid: Int64, chunk: TaskChunk)
    ensures chunk == Chunk(sub, mid) <==>
      (&& chunk.id == sub.id && chunk.name == sub.name && chunk.hash == sub.hash
       && chunk.chunk == sub.chunk && chunk.priority == sub.priority && chunk.dialect == (sub.minion == mid))
  {
  }

  /**
   With distinct ids substance i is sent, as a chunk with its name, hash, content and priority, marked
   private exactly if it is this agent's, if and only if the report's last entry of its id is missing or
   has another hash. Nothing else is sent.
   */
  lemma SentIff(diff: TaskDiff, mid: Int64, report: TaskReport, subs: seq<Substance>, i: nat)
    requires Distinct(subs) && IsDiff(diff, mid, report, subs) && i < |subs|
    ensures var s := subs[i];
      TaskChunk(s.id, s.name, s.minion == mid, s.hash, s.chunk, s.priority) in diff.updates <==>
      !(exists j: nat :: LastEntry(report, j, s.id) && report[j].hash == s.hash)
    ensures forall c | c in diff.updates ::
      exists k | 0 <= k < |subs| ::
        c == TaskChunk(subs[k].id, subs[k].name, subs[k].minion == mid, subs[k].hash, subs[k].chunk, subs[k].priority)
  {
    var hm, s := IdMap(report), subs[i];
    MatchedIs(report, s);
    UpdatesAreUnmatched(mid, subs, hm);
    var un := Unmatched(subs, hm);
    forall k: nat | k < |un| || k < |diff.updates|
      ensures |un| == |diff.updates| && diff.updates[k] == Chunk(un[k], mid)
    {
      ChunksAt(un, mid, k);
    }
    if !Matched(hm, s) {
      UnmatchedSent(subs, hm, i);
      var k :| 0 <= k < |un| && un[k] == s;
      assert diff.updates[k] == Chunk(s, mid);
    }
    if Chunk(s, mid) in diff.updates {
      var k: nat :| k < |diff.updates| && diff.updates[k] == Chunk(s, mid);
      UnmatchedSound(subs, hm, k);
      var i' :| 0 <= i' < |subs| && subs[i'] == un[k] && !Matched(hm, subs[i']);
      assert subs[i'].id == s.id;
    }
    forall c | c in diff.updates
      ensures exists k | 0 <= k < |subs| ::
        c == TaskChunk(subs[k].id, subs[k].name, subs[k].minion == mid, subs[k].hash, subs[k].chunk, subs[k].priority)
    {
      var k: nat :| k < |diff.updates| && diff.updates[k] == c;
      UpdateIdsWanted(mid, subs, hm, k);
    }
  }

  /** An id is removed, once, if and only if its last entry came through the tunnel and no substance has it. */
  lemma RemovedIff(diff: TaskDiff, mid: Int64, report: TaskReport, subs: seq<Substance>, id: Int64)
    requires IsDiff(diff, mid, report, subs)
    ensures id in diff.removes <==>
      (&& (exists j: nat :: LastEntry(report, j, id) && report[j].origin == "tunnel")
       && forall i | 0 <= i < |subs| :: subs[i].id != id)
    ensures forall i, j | 0 <= i < j < |diff.removes| :: diff.removes[i] != diff.removes[j]
  {
    IdMapIsLast(report, id);
  }

  /**
   The diff is empty if and only if the substance ids are distinct, the last entry of each of them has
   the substance's hash, and every last entry that came through the tunnel is wanted.
   */
  lemma NotModifiedIff(diff: TaskDiff, mid: Int64, report: TaskReport, subs: seq<Substance>)
    requires IsDiff(diff, mid, report, subs)
    ensures NotModified(diff) <==> diff.removes == [] && diff.updates == []
    ensures NotModified(diff) <==>
      (&& (forall i, j | 0 <= i < j < |subs| :: subs[i].id != subs[j].id)
       && (forall i | 0 <= i < |subs| :: exists j: nat :: LastEntry(report, j, subs[i].id) && report[j].hash == subs[i].hash)
       && (forall j: nat | j < |report| && LastEntry(report, j, report[j].id) && report[j].origin == "tunnel" ::
             exists i :: 0 <= i < |subs| && subs[i].id == report[j].id))
  {
    EmptyDiffIff(diff, mid, report, subs);
    forall i | 0 <= i < |subs|
      ensures Matched(IdMap(report), subs[i]) <==>
        exists j: nat :: LastEntry(report, j, subs[i].id) && report[j].hash == subs[i].hash
    {
      MatchedIs(report, subs[i]);
    }
    TunnelsWantedIs(report, subs);
  }

  lemma TunnelsWantedIs(report: TaskReport, subs: seq<Substance>)
    ensures (forall id | id in IdMap(report) && IdMap(report)[id].origin == TUNNEL :: id in Ids(subs)) <==>
      (forall j: nat | j < |report| && LastEntry(report, j, report[j].id) && report[j].origin == "tunnel" ::
         exists i :: 0 <= i < |subs| && subs[i].id == report[j].id)
  {
    var hm := IdMap(report);
    if forall id | id in hm && hm[id].origin == TUNNEL :: id in Ids(subs) {
      forall j: nat | j < |report| && LastEntry(report, j, report[j].id) && report[j].origin == "tunnel"
        ensures exists i :: 0 <= i < |subs| && subs[i].id == report[j].id
      {
        IdMapIsLast(report, report[j].id);
        assert report[j].id in Ids(subs);
      }
    } else {
      var id :| id in hm && hm[id].origin == TUNNEL && id !in Ids(subs);
      IdMapIsLast(report, id);
      var j: nat :| LastEntry(report, j, id);
      assert forall i | 0 <= i < |subs| :: subs[i].id in Ids(subs);
      assert !(exists i :: 0 <= i < |subs| && subs[i].id == report[j].id);
    }
  }

  /** Carrying out a diff brings the report in sync, so the next diff is empty. */
  lemma CarriedDiffSuffices(diff: TaskDiff, mid: Int64, report: TaskReport, subs: seq<Substance>, next: TaskReport)
    requires Distinct(subs) && IsDiff(diff, mid, report, subs) && Carried(diff, report, next)
    ensures InSync(next, subs)
  {
    var hm, hm' := IdMap(report), IdMap(next);
    UpdatesAreUnmatched(mid, subs, hm);
    var un := Unmatched(subs, hm);
    forall k: nat | k < |un| || k < |diff.updates|
      ensures |un| == |diff.updates| && diff.updates[k] == Chunk(un[k], mid)
    {
      ChunksAt(un, mid, k);
    }
    forall i | 0 <= i < |subs| ensures Matched(hm', subs[i]) {
      UnmatchedSent(subs, hm, i);
      if subs[i] in un {
        var k :| 0 <= k < |un| && un[k] == subs[i];
        assert diff.updates[k].id == subs[i].id;
      } else {
        forall k | 0 <= k < |diff.updates| ensures diff.updates[k].id != subs[i].id {
          UnmatchedSound(subs, hm, k);
        }
        assert subs[i].id !in SentIds(diff.updates);
        assert subs[i].id in Ids(subs);
        assert subs[i].id !in RemoveIds(subs, hm);
      }
    }
    forall id | id in hm' && hm'[id].origin == TUNNEL ensures id in Ids(subs) {
      if id in SentIds(diff.updates) {
        var k :| 0 <= k < |diff.updates| && diff.updates[k].id == id;
        UpdateIdsWanted(mid, subs, hm, k);
      } else {
        assert id !in diff.removes;
      }
    }
  }

  /** An agent that carries the diff out: drop the removed and replaced tasks, install the sent ones. */
  function CarryOut(diff: TaskDiff, report: TaskReport): TaskReport {
    Keep(report, (set i | 0 <= i < |diff.removes| :: diff.removes[i]) + SentIds(diff.updates)) + Install(diff.updates)
  }

  function Keep(report: TaskReport, drop: set<Int64>): TaskReport {
    if report == [] then []
    else
      var last := report[|report| - 1];
      Keep(report[..|report| - 1], drop) + if last.id in drop then [] else [last]
  }

  function Install(updates: seq<TaskChunk>): TaskReport {
    if updates == [] then []
    else
      Install(updates[..|updates| - 1]) + [Installed(updates[|updates| - 1])]
  }

  function Installed(u: TaskChunk): TaskStatus {
    TaskStatus(u.id, u.dialect, u.name, "running", u.hash, 1, TUNNEL, "", "", [])
  }

  lemma {:induction false} KeepIdMap(report: TaskReport, drop: set<Int64>)
    ensures IdMap(Keep(report, drop)) == IdMap(report) - drop
  {
    if report != [] {
      var init, last := report[..|report| - 1], report[|report| - 1];
      KeepIdMap(init, drop);
      if last.id in drop {
        assert Keep(report, drop) == Keep(init, drop);
      } else {
        assert (Keep(init, drop) + [last])[..|Keep(init, drop)|] == Keep(init, drop);
      }
    }
  }

  ghost predicate DistinctChunks(updates: seq<TaskChunk>) {
    forall i, j | 0 <= i < j < |updates| :: updates[i].id != updates[j].id
  }

  lemma SentSnoc(updates: seq<TaskChunk>)
    requires updates != []
    ensures SentIds(updates) == SentIds(updates[..|updates| - 1]) + {updates[|updates| - 1].id}
  {
    var init, u := updates[..|updates| - 1], updates[|updates| - 1];
    assert forall k | 0 <= k < |init| :: init[k] == updates[k];
    forall id | id in SentIds(updates) ensures id in SentIds(init) + {u.id} {
      var k :| 0 <= k < |updates| && updates[k].id == id;
      assert k < |init| ==> init[k].id == id;
    }
    forall id | id in SentIds(init) ensures id in SentIds(updates) {
      var k :| 0 <= k < |init| && init[k].id == id;
      assert updates[k].id == id;
    }
  }

  lemma {:induction false} IdMapConcat(a: TaskReport, c: TaskReport)
    ensures IdMap(a + c) == IdMap(a) + IdMap(c)
  {
    if c == [] {
      assert a + c == a;
    } else {
      var init := c[..|c| - 1];
      assert (a + c)[..|a + c| - 1] == a + init;
      IdMapConcat(a, init);
    }
  }

  lemma {:induction false} InstallKeys(updates: seq<TaskChunk>)
    ensures IdMap(Install(updates)).Keys == SentIds(updates)
  {
    if updates != [] {
      var init := updates[..|updates| - 1];
      InstallKeys(init);
      SentSnoc(updates);
      assert Install(updates)[..|Install(updates)| - 1] == Install(init);
    }
  }

  lemma {:induction false} InstallHash(updates: seq<TaskChunk>, k: nat)
    requires DistinctChunks(updates) && k < |updates|
    ensures updates[k].id in IdMap(Install(updates))
    ensures IdMap(Install(updates))[updates[k].id].hash == updates[k].hash
  {
    var init := updates[..|updates| - 1];
    assert Install(updates)[..|Install(updates)| - 1] == Install(init);
    if k < |init| {
      assert init[k] == updates[k];
      InstallHash(init, k);
    }
  }

  lemma {:induction false} UnmatchedDistinct(subs: seq<Substance>, hm: map<Int64, TaskStatus>)
    requires Distinct(subs)
    ensures Distinct(Unmatched(subs, hm))
  {
    if subs != [] {
      var rest := Unmatched(subs[1..], hm);
      UnmatchedDistinct(subs[1..], hm);
      forall k | 0 <= k < |rest| ensures rest[k].id != subs[0].id {
        UnmatchedSound(subs[1..], hm, k);
      }
      assert Matched(hm, subs[0]) ==> Unmatched(subs, hm) == rest;
    }
  }

  lemma DiffChunksDistinct(diff: TaskDiff, mid: Int64, report: TaskReport, subs: seq<Substance>)
    requires Distinct(subs) && IsDiff(diff, mid, report, subs)
    ensures DistinctChunks(diff.updates)
  {
    var un := Unmatched(subs, IdMap(report));
    UpdatesAreUnmatched(mid, subs, IdMap(report));
    UnmatchedDistinct(subs, IdMap(report));
    forall k: nat | k < |diff.updates| ensures |un| == |diff.updates| && diff.updates[k].id == un[k].id {
      ChunksAt(un, mid, k);
    }
  }

  /** Applying the diff to the report makes the next diff empty. */
  lemma AppliedDiffSyncs(diff: TaskDiff, mid: Int64, report: TaskReport, subs: seq<Substance>)
    requires Distinct(subs) && IsDiff(diff, mid, report, subs)
    ensures InSync(CarryOut(diff, report), subs)
  {
    var removed := set i | 0 <= i < |diff.removes| :: diff.removes[i];
    DiffChunksDistinct(diff, mid, report, subs);
    KeepIdMap(report, removed + SentIds(diff.updates));
    InstallKeys(diff.updates);
    forall k: nat | k < |diff.updates|
      ensures diff.updates[k].id in IdMap(Install(diff.updates))
        && IdMap(Install(diff.updates))[diff.updates[k].id].hash == diff.updates[k].hash
    {
      InstallHash(diff.updates, k);
    }
    IdMapConcat(Keep(report, removed + SentIds(diff.updates)), Install(diff.updates));
    CarriedDiffSuffices(diff, mid, report, subs, CarryOut(diff, report));
  }

  // ---------------------------------------------------------------------------------------------
  // spinRsync
  // ---------------------------------------------------------------------------------------------

  /** The ids the two sides still disagree about. */
  function Outstanding(mid: Int64, report: TaskReport, subs: seq<Substance>): set<Int64> {
    var hm := IdMap(report);
    RemoveIds(subs, hm) + SentIds(Updates(mid, subs, hm))
  }

  lemma {:induction false} ElementsCount(s: seq<Int64>)
    requires NoRepeat(s)
    ensures |set i | 0 <= i < |s| :: s[i]| == |s|
  {
    if s != [] {
      var init, last := s[..|s| - 1], s[|s| - 1];
      ElementsCount(init);
      var a, b := set i | 0 <= i < |s| :: s[i], set i | 0 <= i < |init| :: init[i];
      assert forall i | 0 <= i < |init| :: init[i] == s[i];
      assert last !in b;
      forall x | x in a ensures x in b + {last} {
        var i :| 0 <= i < |s| && s[i] == x;
        assert i < |init| ==> init[i] in b;
      }
      forall x | x in b ensures x in a {
        var i :| 0 <= i < |init| && init[i] == x;
        assert s[i] in a;
      }
      assert a == b + {last};
    }
  }

  lemma {:induction false} SentCount(updates: seq<TaskChunk>)
    requires DistinctChunks(updates)
    ensures |SentIds(updates)| == |updates|
  {
    if updates != [] {
      SentSnoc(updates);
      SentCount(updates[..|updates| - 1]);
      assert updates[|updates| - 1].id !in SentIds(updates[..|updates| - 1]);
    }
  }

  /** With distinct substances, the number of outstanding ids is the size of the diff. */
  lemma OutstandingIsDiffSize(diff: TaskDiff, mid: Int64, report: TaskReport, subs: seq<Substance>)
    requires Distinct(subs) && IsDiff(diff, mid, report, subs)
    ensures |Outstanding(mid, report, subs)| == |diff.removes| + |diff.updates|
  {
    DiffChunksDistinct(diff, mid, report, subs);
    ElementsCount(diff.removes);
    SentCount(diff.updates);
    var removed := set i | 0 <= i < |diff.removes| :: diff.removes[i];
    assert forall id :: id in removed <==> id in diff.removes;
    forall id | id in SentIds(diff.updates) ensures id !in removed {
      var i :| 0 <= i < |diff.updates| && diff.updates[i].id == id;
      RemovesAndUpdatesApart(diff, mid, report, subs, i);
    }
    assert Outstanding(mid, report, subs) == removed + SentIds(diff.updates);
  }

  predicate Clean(mid: Int64, report: TaskReport, subs: seq<Substance>) {
    Updates(mid, subs, IdMap(report)) == [] && RemoveIds(subs, IdMap(report)) == {}
  }

  lemma CleanIffNothingOutstanding(mid: Int64, report: TaskReport, subs: seq<Substance>)
    ensures Clean(mid, report, subs) <==> Outstanding(mid, report, subs) == {}
  {
    var ups := Updates(mid, subs, IdMap(report));
    if ups != [] {
      assert ups[0].id in Outstanding(mid, report, subs);
    }
  }

  lemma DiffSaysClean(diff: TaskDiff, mid: Int64, report: TaskReport, subs: seq<Substance>)
    requires IsDiff(diff, mid, report, subs)
    ensures NotModified(diff) <==> Clean(mid, report, subs)
  {
    if |diff.removes| > 0 {
      assert diff.removes[0] in RemoveIds(subs, IdMap(report));
    }
    if RemoveIds(subs, IdMap(report)) != {} {
      var id :| id in RemoveIds(subs, IdMap(report));
      assert id in diff.removes;
    }
  }

  /** The report before round k: agent(i) is the answer of the (i+1)-th fetch, None a failed one. */
  function Before(report: TaskReport, agent: nat -> Option<TaskReport>, k: nat): Option<TaskReport> {
    if k == 0 then Some(report) else agent(k - 1)
  }

  /**
   The loop stopped after `fetches` rounds: every earlier report was answered and not clean, and it
   stopped for a reason.
   */
  ghost predicate SpinOutcome(mid: Int64, report: TaskReport, subs: seq<Substance>, cycle: int,
                              agent: nat -> Option<TaskReport>, fetches: nat, result: Option<TaskReport>) {
    && (fetches == 0 || fetches <= cycle)
    && (forall k | 0 <= k < fetches ::
          Before(report, agent, k).Some? && !Clean(mid, Before(report, agent, k).value, subs))
    && result == Before(report, agent, fetches)
    && (result.Some? ==> Clean(mid, result.value, subs) || fetches >= cycle)
  }

  method SpinRsync(mid: Int64, report: TaskReport, subs: seq<Substance>, cycle: int, agent: nat -> Option<TaskReport>)
    returns (result: Option<TaskReport>, fetches: nat)
    ensures SpinOutcome(mid, report, subs, cycle, agent, fetches, result)
  {
    fetches := 0;
    var current := report;
    var diff := Diff(mid, current, subs);
    DiffSaysClean(diff, mid, current, subs);
    while !NotModified(diff) && fetches < cycle
      invariant fetches == 0 || fetches <= cycle
      invariant Before(report, agent, fetches) == Some(current)
      invariant NotModified(diff) <==> Clean(mid, current, subs)
      invariant forall k | 0 <= k < fetches ::
        Before(report, agent, k).Some? && !Clean(mid, Before(report, agent, k).value, subs)
      decreases cycle - fetches
    {
      var nrp := agent(fetches);
      fetches := fetches + 1;
      if nrp == None {
        return None, fetches;
      }
      diff := Diff(mid, nrp.value, subs);
      DiffSaysClean(diff, mid, nrp.value, subs);
      current := nrp.value;
    }
    result := Some(current);
  }

  /** The outcome is determined by the report, the substances and the agent's answers. */
  lemma SpinOutcomeUnique(mid: Int64, report: TaskReport, subs: seq<Substance>, cycle: int, agent: nat -> Option<TaskReport>,
                          f1: nat, r1: Option<TaskReport>, f2: nat, r2: Option<TaskReport>)
    requires SpinOutcome(mid, report, subs, cycle, agent, f1, r1)
    requires SpinOutcome(mid, report, subs, cycle, agent, f2, r2)
    ensures f1 == f2 && r1 == r2
  {
    assert f1 < f2 ==> Before(report, agent, f1).Some?;
    assert f2 < f1 ==> Before(report, agent, f2).Some?;
  }

  /** Each round is answered, settles at least one outstanding id, and creates none. */
  ghost predicate Progresses(mid: Int64, report: TaskReport, subs: seq<Substance>, cycle: int, agent: nat -> Option<TaskReport>) {
    forall k: nat | k < cycle && Before(report, agent, k).Some? && !Clean(mid, Before(report, agent, k).value, subs) ::
      agent(k).Some?
      && Outstanding(mid, agent(k).value, subs) < Outstanding(mid, Before(report, agent, k).value, subs)
  }

  lemma {:induction false} ShrinkingChain(left: nat -> set<Int64>, k: nat)
    requires forall j | 0 <= j < k :: left(j + 1) < left(j)
    ensures |left(k)| + k <= |left(0)|
  {
    if k > 0 {
      ShrinkingChain(left, k - 1);
      assert left(k - 1 + 1) < left(k - 1);
      Sets.SmallerSet(left(k), left(k - 1));
    }
  }

  /** The ids still outstanding before round k. */
  function LeftBefore(mid: Int64, report: TaskReport, subs: seq<Substance>, agent: nat -> Option<TaskReport>, k: nat): set<Int64> {
    match Before(report, agent, k)
    case Some(r) => Outstanding(mid, r, subs)
    case None => {}
  }

  /** After k rounds at least k ids have been settled. */
  lemma SettledAfter(mid: Int64, report: TaskReport, subs: seq<Substance>, cycle: int,
                     agent: nat -> Option<TaskReport>, k: nat)
    requires Progresses(mid, report, subs, cycle, agent) && (k == 0 || k <= cycle)
    requires forall j | 0 <= j < k ::
      Before(report, agent, j).Some? && !Clean(mid, Before(report, agent, j).value, subs)
    ensures Before(report, agent, k).Some?
    ensures |LeftBefore(mid, report, subs, agent, k)| + k <= |Outstanding(mid, report, subs)|
  {
    forall j | 0 <= j < k
      ensures agent(j).Some? && LeftBefore(mid, report, subs, agent, j + 1) < LeftBefore(mid, report, subs, agent, j)
    {
      assert Before(report, agent, j).Some?;
    }
    ShrinkingChain(i => LeftBefore(mid, report, subs, agent, i), k);
    assert k > 0 ==> agent(k - 1).Some?;
  }

  /**
   An agent that makes progress in every round converges whenever the initial mismatch is at most
   `cycle`, and takes at most as many fetches as there were outstanding ids.
   */
  lemma ProgressConverges(mid: Int64, report: TaskReport, subs: seq<Substance>, cycle: int, agent: nat -> Option<TaskReport>,
                          fetches: nat, result: Option<TaskReport>)
    requires SpinOutcome(mid, report, subs, cycle, agent, fetches, result)
    requires Progresses(mid, report, subs, cycle, agent)
    requires |Outstanding(mid, report, subs)| <= cycle
    ensures result.Some? && Clean(mid, result.value, subs)
    ensures fetches <= |Outstanding(mid, report, subs)|
  {
    SettledAfter(mid, report, subs, cycle, agent, fetches);
    CleanIffNothingOutstanding(mid, result.value, subs);
  }

  /** A faithful first answer ends the loop after one fetch. */
  lemma FaithfulAgentOneFetch(mid: Int64, report: TaskReport, subs: seq<Substance>, cycle: int, agent: nat -> Option<TaskReport>,
                              fetches: nat, result: Option<TaskReport>, diff: TaskDiff)
    requires SpinOutcome(mid, report, subs, cycle, agent, fetches, result) && cycle >= 1
    requires Distinct(subs) && IsDiff(diff, mid, report, subs) && !NotModified(diff)
    requires agent(0).Some? && Carried(diff, report, agent(0).value)
    ensures fetches == 1 && result == agent(0) && InSync(result.value, subs)
  {
    DiffSaysClean(diff, mid, report, subs);
    var next := agent(0).value;
    CarriedDiffSuffices(diff, mid, report, subs, next);
    NoUpdatesIff(mid, subs, IdMap(next));
    assert RemoveIds(subs, IdMap(next)) == {};
    assert Clean(mid, next, subs);
    assert Before(report, agent, 1) == agent(0);
    SpinOutcomeUnique(mid, report, subs, cycle, agent, fetches, result, 1, agent(0));
  }

  /** Repeated substance ids never settle: unless a fetch fails, the loop uses up every round. */
  lemma RepeatedIdsNeverSettle(mid: Int64, report: TaskReport, subs: seq<Substance>, cycle: nat, agent: nat -> Option<TaskReport>,
                               fetches: nat, result: Option<TaskReport>)
    requires SpinOutcome(mid, report, subs, cycle, agent, fetches, result) && !Distinct(subs)
    ensures result.Some? ==> fetches == cycle
  {
    if result.Some? {
      NoUpdatesIff(mid, subs, IdMap(result.value));
    }
  }

  // ---------------------------------------------------------------------------------------------
  // rsync: the status table
  // ---------------------------------------------------------------------------------------------

  datatype MinionTask = MinionTask(
    substance: Int64, minion: Int64, inet: string, dialect: bool, name: string, status: string, hash: string,
    origin: string, link: string, uptime: int, failed: bool, cause: string, runners: seq<int>, createdAt: int)

  function Model(task: TaskStatus, mid: Int64, inet: string, now: int): MinionTask {
    MinionTask(task.id, mid, inet, task.dialect, task.name, task.status, task.hash, task.origin, task.link,
               if task.uptime == 0 then now else task.uptime, task.cause != "", task.cause, task.runners, now)
  }

  function RowsOf(rows: seq<MinionTask>, mid: Int64): seq<MinionTask> {
    if rows == [] then []
    else (if rows[0].minion == mid then [rows[0]] else []) + RowsOf(rows[1..], mid)
  }

  function Others(rows: seq<MinionTask>, mid: Int64): seq<MinionTask> {
    if rows == [] then []
    else (if rows[0].minion == mid then [] else [rows[0]]) + Others(rows[1..], mid)
  }

  lemma {:induction false} RowsOfConcat(a: seq<MinionTask>, c: seq<MinionTask>, mid: Int64)
    ensures RowsOf(a + c, mid) == RowsOf(a, mid) + RowsOf(c, mid)
  {
    if a == [] {
      assert a + c == c;
    } else {
      assert (a + c)[1..] == a[1..] + c;
      RowsOfConcat(a[1..], c, mid);
    }
  }

  lemma {:induction false} OthersRows(rows: seq<MinionTask>, mid: Int64, k: Int64)
    ensures RowsOf(Others(rows, mid), k) == if k == mid then [] else RowsOf(rows, k)
  {
    if rows != [] {
      OthersRows(rows[1..], mid, k);
      var head := if rows[0].minion == mid then [] else [rows[0]];
      RowsOfConcat(head, Others(rows[1..], mid), k);
      assert head != [] ==> head[1..] == [];
    }
  }

  lemma {:induction false} RowsOfUniform(rows: seq<MinionTask>, mid: Int64, k: Int64)
    requires forall i | 0 <= i < |rows| :: rows[i].minion == mid
    ensures RowsOf(rows, k) == if k == mid then rows else []
  {
    if rows != [] {
      RowsOfUniform(rows[1..], mid, k);
    }
  }

  /** The status row of a report's entry, field by field; a zero start time reads as now. */
  lemma ModelOf(task: TaskStatus, mid: Int64, inet: string, now: int)
    ensures var row := Model(task, mid, inet, now);
      && row.substance == task.id && row.minion == mid && row.inet == inet && row.createdAt == now
      && row.dialect == task.dialect && row.name == task.name && row.status == task.status && row.hash == task.hash
      && row.origin == task.origin && row.link == task.link && row.cause == task.cause && row.runners == task.runners
      && row.uptime == (if task.uptime == 0 then now else task.uptime)
      && (row.failed <==> task.cause != "")
  {
  }

  method ToModels(report: TaskReport, mid: Int64, inet: string, now: int) returns (models: seq<MinionTask>)
    ensures |models| == |report|
    ensures forall i | 0 <= i < |report| :: models[i] == Model(report[i], mid, inet, now)
  {
    models := [];
    for i := 0 to |report|
      invariant |models| == i
      invariant forall j | 0 <= j < i :: models[j] == Model(report[j], mid, inet, now)
    {
      var task := report[i];
      var uptime := task.uptime;
      if uptime == 0 {
        uptime := now;
      }
      models := models + [MinionTask(task.id, mid, inet, task.dialect, task.name, task.status, task.hash,
                                     task.origin, task.link, uptime, task.cause != "", task.cause, task.runners, now)];
    }
  }

  /** `rows` is the image of a report, entry by entry. */
  ghost predicate ImageOf(rows: seq<MinionTask>, report: TaskReport, mid: Int64, inet: string, now: int) {
    |rows| == |report| && forall i | 0 <= i < |report| :: rows[i] == Model(report[i], mid, inet, now)
  }

  /** Row i of an image is that of entry i. */
  lemma ImageRow(rows: seq<MinionTask>, report: TaskReport, mid: Int64, inet: string, now: int, i: nat)
    requires ImageOf(rows, report, mid, inet, now) && (i < |rows| || i < |report|)
    ensures |rows| == |report| && rows[i] == Model(report[i], mid, inet, now)
  {
  }

  class StatusTable {
    var rows: seq<MinionTask>

    method DeleteOf(mid: Int64)
      modifies this
      ensures rows == Others(old(rows), mid)
    {
      var kept := [];
      var all := rows;
      assert all[0..] == all;
      for i := 0 to |all|
        invariant kept + Others(all[i..], mid) == Others(all, mid)
      {
        var head := if all[i].minion == mid then [] else [all[i]];
        assert kept + (head + Others(all[i + 1..], mid)) == (kept + head) + Others(all[i + 1..], mid);
        assert all[i..][1..] == all[i + 1..];
        kept := kept + head;
      }
      rows := kept;
    }

    /**
     rsync, its database writes succeeding. Until the spin is reached nothing changes; after it the
     rows of this minion are exactly the image of the final report, none if the spin failed, and the
     rows of every other minion are the ones there were, in order.
     */
    method Rsync(mid: Int64, inet: string, now: int, status: Option<TaskReport>, subs: Option<seq<Substance>>,
                 cycle: int, agent: nat -> Option<TaskReport>)
      returns (ok: bool, ghost fetches: nat, ghost final: Option<TaskReport>)
      modifies this
      ensures status == None || subs == None ==> !ok && rows == old(rows)
      ensures status.Some? && subs.Some? ==>
        && SpinOutcome(mid, status.value, subs.value, cycle, agent, fetches, final)
        && (ok <==> final.Some?)
        && (if final.Some? then ImageOf(RowsOf(rows, mid), final.value, mid, inet, now) else RowsOf(rows, mid) == [])
        && (forall k: Int64 | k != mid :: RowsOf(rows, k) == RowsOf(old(rows), k))
    {
      fetches, final := 0, None;
      if status == None || subs == None {
        return false, 0, None;
      }
      var nrp, used := SpinRsync(mid, status.value, subs.value, cycle, agent);
      fetches, final := used, nrp;
      DeleteOf(mid);
      var models := [];
      if nrp.Some? {
        models := ToModels(nrp.value, mid, inet, now);
        rows := rows + models;
      }
      ok := nrp.Some?;
      forall k: Int64 ensures RowsOf(rows, k) == if k == mid then models else RowsOf(old(rows), k) {
        assert nrp == None ==> rows == Others(old(rows), mid) + models;
        RowsOfConcat(Others(old(rows), mid), models, k);
        OthersRows(old(rows), mid, k);
        RowsOfUniform(models, mid, k);
      }
    }
  }
}
