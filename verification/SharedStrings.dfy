/**
 The shared strings of app/agtsvc/shared_strings.go, for one (bucket, key), which is unique in the
 table. Every request reads the row first and writes later; both halves of many requests interleave.
 */
module SharedStrings {
  import opened Wrappers

  datatype KV = KV(value: string, count: int, lifetime: int, expiredAt: int, version: int)

  datatype Req =
    | Set(value: string, lifetime: int)
    | Store(value: string, lifetime: int)
    | Incr(n: int, lifetime: int)

  /** A request and the time it started at. */
  datatype Call = Call(req: Req, now: int)

  /** What a request does next; `epoch` is the number of deletions it had seen when it read the row. */
  datatype Client =
    | Updating(call: Call, snap: KV, epoch: nat)
    | Purging(call: Call, snap: KV, epoch: nat)
    | Creating(call: Call, lifetime: int)
    | Finished

  /** A version-matched update: the request and the snapshot it wrote from. */
  datatype Win = Win(call: Call, snap: KV)

  /** The request that created the row, and the lifetime of the expired row it replaced, 0 if there was none. */
  datatype Making = Making(call: Call, oldLifetime: int)

  /**
   `epoch`, `born`, `maker` and `wins` are history: how often a row was deleted, the row as it was
   created and by whom, if not there from the start, and the version-matched updates since.
   */
  datatype State = State(
    row: Option<KV>,
    clients: map<nat, Client>,
    epoch: nat,
    born: KV,
    maker: Option<Making>,
    wins: seq<Win>
  )

  datatype Event =
    | Look(c: nat, call: Call, expired: bool)
    | Update(c: nat)
    | Purge(c: nat)
    | Create(c: nat)
    | Del

  function NonNegative(d: int): int {
    if d < 0 then 0 else d
  }

  function Step(n: int): int {
    if n == 0 then 1 else n
  }

  /** The columns an update writes, computed from the snapshot, over those of the row. */
  function Written(call: Call, snap: KV, row: KV): KV {
    match call.req
    case Set(value, lifetime) =>
      var d := if lifetime <= 0 then snap.lifetime else lifetime;
      row.(value := value, expiredAt := call.now + d, version := snap.version + 1)
    case Store(value, _) =>
      row.(value := value, version := snap.version + 1)
    case Incr(n, lifetime) =>
      var d := if lifetime <= 0 then snap.lifetime else lifetime;
      row.(count := snap.count + Step(n), lifetime := d, expiredAt := call.now + d, version := snap.version + 1)
  }

  /** The row a request creates; an expired old row is gone by then, but Incr keeps its lifetime for the expiry. */
  function Fresh(call: Call, oldLifetime: int): KV {
    match call.req
    case Set(value, lifetime) => KV(value, 0, NonNegative(lifetime), call.now + NonNegative(lifetime), 1)
    case Store(value, lifetime) => KV(value, 0, NonNegative(lifetime), call.now + NonNegative(lifetime), 1)
    case Incr(n, lifetime) => KV("", Step(n), 0, call.now + (if lifetime <= 0 then oldLifetime else lifetime), 1)
  }

  predicate Enabled(st: State, e: Event) {
    match e
    case Look(c, _, _) => c !in st.clients
    case Update(c) => c in st.clients && st.clients[c].Updating?
    case Purge(c) => c in st.clients && st.clients[c].Purging?
    case Create(c) => c in st.clients && st.clients[c].Creating?
    case Del => true
  }

  function Deleted(st: State): State {
    if st.row == None then st else st.(row := None, epoch := st.epoch + 1)
  }

  predicate Matches(row: Option<KV>, snap: KV) {
    row.Some? && row.value.version == snap.version
  }

  function Apply(st: State, e: Event): State
    requires Enabled(st, e)
  {
    match e
    case Look(c, call, expired) =>
      var next := match st.row
        case None => Creating(call, 0)
        case Some(snap) => if expired then Purging(call, snap, st.epoch) else Updating(call, snap, st.epoch);
      st.(clients := st.clients[c := next])
    case Update(c) =>
      var x := st.clients[c];
      var st' := st.(clients := st.clients[c := Finished]);
      if Matches(st.row, x.snap) then
        st'.(row := Some(Written(x.call, x.snap, st.row.value)),
             wins := st.wins + [Win(x.call, x.snap)])
      else st'
    case Purge(c) =>
      var x := st.clients[c];
      var st' := st.(clients := st.clients[c := Creating(x.call, x.snap.lifetime)]);
      if x.call.req.Incr? || Matches(st.row, x.snap) then Deleted(st') else st'
    case Create(c) =>
      var x := st.clients[c];
      var st' := st.(clients := st.clients[c := Finished]);
      if st.row.Some? then st'
      else
        var kv := Fresh(x.call, x.lifetime);
        st'.(row := Some(kv), born := kv, maker := Some(Making(x.call, x.lifetime)), wins := [])
    case Del => Deleted(st)
  }

  predicate Legal(st: State, trace: seq<Event>)
    decreases |trace|
  {
    trace == [] || (Enabled(st, trace[0]) && Legal(Apply(st, trace[0]), trace[1..]))
  }

  function Run(st: State, trace: seq<Event>): State
    requires Legal(st, trace)
    decreases |trace|
  {
    if trace == [] then st else Run(Apply(st, trace[0]), trace[1..])
  }

  // ---------------------------------------------------------------------------------------------
  // What the matched updates do to the row
  // ---------------------------------------------------------------------------------------------

  /** The row after its matched updates, each written from its own snapshot. */
  function Replay(born: KV, wins: seq<Win>): KV {
    if wins == [] then born
    else
      var w := wins[|wins| - 1];
      Written(w.call, w.snap, Replay(born, wins[..|wins| - 1]))
  }

  /** The same requests carried out one after the other, each on the row the one before left. */
  function InTurn(born: KV, wins: seq<Win>): KV {
    if wins == [] then born
    else
      var kv := InTurn(born, wins[..|wins| - 1]);
      Written(wins[|wins| - 1].call, kv, kv)
  }

  function Added(wins: seq<Win>): int {
    if wins == [] then 0
    else
      var req := wins[|wins| - 1].call.req;
      Added(wins[..|wins| - 1]) + if req.Incr? then Step(req.n) else 0
  }

  /** By how much the snapshots of the matched increments were off. */
  function Drift(born: KV, wins: seq<Win>): int {
    if wins == [] then 0
    else
      var w, before := wins[|wins| - 1], wins[..|wins| - 1];
      Drift(born, before) + if w.call.req.Incr? then w.snap.count - Replay(born, before).count else 0
  }

  /** The value of the last Set or Store, if there is one. */
  function LastValue(born: KV, wins: seq<Win>): string {
    if wins == [] then born.value
    else match wins[|wins| - 1].call.req
      case Set(value, _) => value
      case Store(value, _) => value
      case Incr(_, _) => LastValue(born, wins[..|wins| - 1])
  }

  lemma {:induction false} ReplayCounts(born: KV, wins: seq<Win>)
    ensures Replay(born, wins).count == born.count + Added(wins) + Drift(born, wins)
    ensures Replay(born, wins).value == LastValue(born, wins)
  {
    if wins != [] {
      ReplayCounts(born, wins[..|wins| - 1]);
    }
  }

  lemma {:induction false} InTurnCounts(born: KV, wins: seq<Win>)
    ensures InTurn(born, wins).version == born.version + |wins|
    ensures InTurn(born, wins).count == born.count + Added(wins)
    ensures InTurn(born, wins).value == LastValue(born, wins)
  {
    if wins != [] {
      InTurnCounts(born, wins[..|wins| - 1]);
    }
  }

  /** Writing from this snapshot cannot be told from writing from the row itself. */
  predicate Harmless(call: Call, snap: KV, row: KV) {
    match call.req
    case Set(_, lifetime) => lifetime > 0 || snap.lifetime == row.lifetime
    case Store(_, _) => true
    case Incr(_, lifetime) => snap.count == row.count && (lifetime > 0 || snap.lifetime == row.lifetime)
  }

  lemma WrittenSameIff(call: Call, snap: KV, row: KV)
    requires snap.version == row.version
    ensures Written(call, snap, row) == Written(call, row, row) <==> Harmless(call, snap, row)
  {
  }

  /** Every matched update since the row was created met the row it assumed, as far as it looks at it. */
  ghost predicate AllHarmless(born: KV, wins: seq<Win>)
    decreases |wins|
  {
    wins == [] ||
      var w, before := wins[|wins| - 1], wins[..|wins| - 1];
      AllHarmless(born, before) && Harmless(w.call, w.snap, Replay(born, before))
  }

  /** The row was at every moment since its creation what its matched updates give one after the other. */
  ghost predicate AlwaysInTurn(born: KV, wins: seq<Win>)
    decreases |wins|
  {
    Replay(born, wins) == InTurn(born, wins) && (wins == [] || AlwaysInTurn(born, wins[..|wins| - 1]))
  }

  /** The versions the updates matched. */
  ghost predicate VersionsMatch(born: KV, wins: seq<Win>)
    decreases |wins|
  {
    wins == [] ||
      var w, before := wins[|wins| - 1], wins[..|wins| - 1];
      VersionsMatch(born, before) && w.snap.version == Replay(born, before).version
  }

  lemma {:induction false} ReplayVersion(born: KV, wins: seq<Win>)
    requires VersionsMatch(born, wins)
    ensures Replay(born, wins).version == born.version + |wins|
  {
    if wins != [] {
      ReplayVersion(born, wins[..|wins| - 1]);
    }
  }

  lemma {:induction false} InTurnIff(born: KV, wins: seq<Win>)
    requires VersionsMatch(born, wins)
    ensures AlwaysInTurn(born, wins) <==> AllHarmless(born, wins)
  {
    if wins != [] {
      var w, before := wins[|wins| - 1], wins[..|wins| - 1];
      InTurnIff(born, before);
      WrittenSameIff(w.call, w.snap, Replay(born, before));
    }
  }

  // ---------------------------------------------------------------------------------------------
  // The invariant
  // ---------------------------------------------------------------------------------------------

  /** A snapshot read since the last deletion is not ahead of the row, and is the row if the versions agree. */
  ghost predicate SnapshotOk(st: State, c: nat)
    requires c in st.clients
  {
    match st.clients[c]
    case Updating(_, snap, e) => CurrentOk(st, snap, e)
    case Purging(_, snap, e) => CurrentOk(st, snap, e)
    case _ => true
  }

  ghost predicate CurrentOk(st: State, snap: KV, e: nat) {
    && e <= st.epoch
    && (e == st.epoch ==>
          st.row.Some? && snap.version <= st.row.value.version
          && (snap.version == st.row.value.version ==> snap == st.row.value))
  }

  ghost predicate Inv(st: State) {
    && (forall c | c in st.clients :: SnapshotOk(st, c))
    && (st.row.Some? ==> st.row.value == Replay(st.born, st.wins) && VersionsMatch(st.born, st.wins))
    && (st.maker.Some? ==> st.born == Fresh(st.maker.value.call, st.maker.value.oldLifetime))
  }

  lemma StepKeepsInv(st: State, e: Event)
    requires Inv(st) && Enabled(st, e)
    ensures Inv(Apply(st, e))
  {
    var st' := Apply(st, e);
    forall c | c in st'.clients ensures SnapshotOk(st', c) {
      if c in st.clients {
        assert SnapshotOk(st, c);
      }
    }
    if e.Update? {
      assert SnapshotOk(st, e.c);
      assert (st.wins + [Win(st.clients[e.c].call, st.clients[e.c].snap)])[..|st.wins|] == st.wins;
    }
  }

  lemma {:induction false} RunKeepsInv(st: State, trace: seq<Event>)
    requires Inv(st) && Legal(st, trace)
    ensures Inv(Run(st, trace))
    decreases |trace|
  {
    if trace != [] {
      StepKeepsInv(st, trace[0]);
      RunKeepsInv(Apply(st, trace[0]), trace[1..]);
    }
  }

  /** No requests under way, and whatever row there may be. */
  ghost predicate Initial(st: State) {
    && st.clients == map[] && st.wins == [] && st.maker == None
    && (st.row.Some? ==> st.row.value == st.born)
  }

  // ---------------------------------------------------------------------------------------------
  // Whole runs, deletions included
  // ---------------------------------------------------------------------------------------------

  /**
   On every interleaving the version counts the matched updates since the row was created, the value is
   the last one set, and the counter has every increment plus what the increments' snapshots were off
   by: so it is exact if and only if those errors add up to nothing.
   */
  lemma CountExactIff(st0: State, trace: seq<Event>)
    requires Initial(st0) && Legal(st0, trace) && Run(st0, trace).row.Some?
    ensures var st := Run(st0, trace); var kv := st.row.value;
      && kv.version == st.born.version + |st.wins|
      && kv.value == LastValue(st.born, st.wins)
      && kv.count == st.born.count + Added(st.wins) + Drift(st.born, st.wins)
      && (kv.count == st.born.count + Added(st.wins) <==> Drift(st.born, st.wins) == 0)
  {
    RunKeepsInv(st0, trace);
    var st := Run(st0, trace);
    ReplayVersion(st.born, st.wins);
    ReplayCounts(st.born, st.wins);
  }

  /**
   And the whole row has at every moment been what the matched updates give when carried out one after
   the other if and only if each of them was harmless when it matched: a Store always is, a Set if it
   brings its own lifetime or its snapshot has the row's, an Incr if its snapshot also has the row's
   count.
   */
  lemma SequentialIff(st0: State, trace: seq<Event>)
    requires Initial(st0) && Legal(st0, trace) && Run(st0, trace).row.Some?
    ensures var st := Run(st0, trace);
      && (AlwaysInTurn(st.born, st.wins) <==> AllHarmless(st.born, st.wins))
      && (AllHarmless(st.born, st.wins) ==> st.row == Some(InTurn(st.born, st.wins)))
  {
    RunKeepsInv(st0, trace);
    InTurnIff(Run(st0, trace).born, Run(st0, trace).wins);
  }

  /**
   One update on any reachable state: it changes the row if and only if the versions agree, and it then
   does what its request does to the present row if and only if it is harmless. A snapshot read since
   the last deletion agrees in its version only if it is the row, so only an update that crossed a
   deletion can do harm.
   */
  lemma UpdateActsOnRowIff(st0: State, trace: seq<Event>, c: nat)
    requires Initial(st0) && Legal(st0, trace) && Enabled(Run(st0, trace), Update(c))
    ensures var st := Run(st0, trace); var st' := Apply(st, Update(c)); var x := st.clients[c];
      && (!Matches(st.row, x.snap) ==> st'.row == st.row && st'.wins == st.wins)
      && (Matches(st.row, x.snap) ==>
            && st'.wins == st.wins + [Win(x.call, x.snap)]
            && (st'.row == Some(Written(x.call, st.row.value, st.row.value)) <==> Harmless(x.call, x.snap, st.row.value))
            && (st.row != Some(x.snap) ==> x.epoch < st.epoch))
  {
    RunKeepsInv(st0, trace);
    var st := Run(st0, trace);
    assert SnapshotOk(st, c);
    if Matches(st.row, st.clients[c].snap) {
      WrittenSameIff(st.clients[c].call, st.clients[c].snap, st.row.value);
    }
  }

  /**
   The expiry path on any reachable state: Set and Store delete the row if and only if it still has the
   version they read, Incr deletes whatever row is there; a Set or Store deletes a row other than the
   one it read only across an earlier deletion.
   */
  lemma PurgeDeletesIff(st0: State, trace: seq<Event>, c: nat)
    requires Initial(st0) && Legal(st0, trace) && Enabled(Run(st0, trace), Purge(c)) && Run(st0, trace).row.Some?
    ensures var st := Run(st0, trace); var x := st.clients[c]; var gone := Apply(st, Purge(c)).row == None;
      && (gone <==> x.call.req.Incr? || st.row.value.version == x.snap.version)
      && (gone && !x.call.req.Incr? && st.row != Some(x.snap) ==> x.epoch < st.epoch)
  {
    RunKeepsInv(st0, trace);
    assert SnapshotOk(Run(st0, trace), c);
  }

  // ---------------------------------------------------------------------------------------------
  // What each step does, written out column by column
  // ---------------------------------------------------------------------------------------------

  /** find: what a request will do next depends on the row it reads, and it writes nothing. */
  lemma LookEffect(st: State, c: nat, call: Call, expired: bool)
    requires Enabled(st, Look(c, call, expired))
    ensures var st' := Apply(st, Look(c, call, expired));
      && st'.row == st.row && st'.wins == st.wins && st'.epoch == st.epoch
      && st'.clients == st.clients[c :=
           if st.row == None then Creating(call, 0)
           else if expired then Purging(call, st.row.value, st.epoch)
           else Updating(call, st.row.value, st.epoch)]
  {
  }

  /** In every phase exactly the request's next step can be taken, whatever the others do. */
  lemma NextStep(st: State, c: nat, call: Call, expired: bool)
    ensures Enabled(st, Look(c, call, expired)) <==> c !in st.clients
    ensures Enabled(st, Update(c)) <==> c in st.clients && st.clients[c].Updating?
    ensures Enabled(st, Purge(c)) <==> c in st.clients && st.clients[c].Purging?
    ensures Enabled(st, Create(c)) <==> c in st.clients && st.clients[c].Creating?
    ensures Enabled(st, Del)
  {
  }

  /** An update writes only if the version is the one read, and then the columns of its request. */
  lemma UpdateEffect(st: State, c: nat)
    requires Enabled(st, Update(c))
    ensures var st', call, snap := Apply(st, Update(c)), st.clients[c].call, st.clients[c].snap;
      && st'.clients == st.clients[c := Finished] && st'.epoch == st.epoch
      && (st.row == None || st.row.value.version != snap.version ==> st'.row == st.row && st'.wins == st.wins)
      && (st.row.Some? && st.row.value.version == snap.version ==>
            && st'.row.Some?
            && st'.row.value.version == snap.version + 1
            && st'.row.value.value == (if call.req.Incr? then st.row.value.value else call.req.value)
            && st'.row.value.count == (if !call.req.Incr? then st.row.value.count
                                       else snap.count + if call.req.n == 0 then 1 else call.req.n)
            && st'.row.value.lifetime == (if !call.req.Incr? then st.row.value.lifetime
                                          else if call.req.lifetime > 0 then call.req.lifetime else snap.lifetime)
            && st'.row.value.expiredAt ==
                 (if call.req.Store? then st.row.value.expiredAt
                  else call.now + if call.req.lifetime > 0 then call.req.lifetime else snap.lifetime))
  {
  }

  /** The columns of a row that request c creates; it creates none if there is one. */
  lemma CreateEffect(st: State, c: nat)
    requires Enabled(st, Create(c))
    ensures var st', call, lifetime := Apply(st, Create(c)), st.clients[c].call, st.clients[c].lifetime;
      && st'.clients == st.clients[c := Finished] && st'.epoch == st.epoch
      && (st.row.Some? ==> st'.row == st.row && st'.wins == st.wins)
      && (st.row == None ==>
            && st'.row.Some? && st'.wins == []
            && st'.row.value.version == 1
            && st'.row.value.value == (if call.req.Incr? then "" else call.req.value)
            && st'.row.value.count == (if !call.req.Incr? then 0 else if call.req.n == 0 then 1 else call.req.n)
            && st'.row.value.lifetime == (if call.req.Incr? || call.req.lifetime < 0 then 0 else call.req.lifetime)
            && st'.row.value.expiredAt ==
                 call.now + if call.req.lifetime > 0 then call.req.lifetime else if call.req.Incr? then lifetime else 0)
  {
  }

  /** On expiry the row goes, and the request goes on to create its own; an Incr keeps the lifetime it read. */
  lemma PurgeEffect(st: State, c: nat)
    requires Enabled(st, Purge(c))
    ensures var st', call, snap := Apply(st, Purge(c)), st.clients[c].call, st.clients[c].snap;
      && st'.clients == st.clients[c := Creating(call, snap.lifetime)]
      && st'.row == if st.row.Some? && !call.req.Incr? && st.row.value.version != snap.version then st.row else None
  {
  }

  lemma DelEffect(st: State)
    ensures Apply(st, Del).row == None && Apply(st, Del).clients == st.clients
  {
  }

  /** When the row expires, by its last Set or Incr. */
  function LastExpiry(born: KV, wins: seq<Win>): int {
    if wins == [] then born.expiredAt
    else
      var w := wins[|wins| - 1];
      if w.call.req.Store? then LastExpiry(born, wins[..|wins| - 1])
      else w.call.now + if w.call.req.lifetime > 0 then w.call.req.lifetime else w.snap.lifetime
  }

  /** The row's lifetime, by its last Incr. */
  function LastLifetime(born: KV, wins: seq<Win>): int {
    if wins == [] then born.lifetime
    else
      var w := wins[|wins| - 1];
      if !w.call.req.Incr? then LastLifetime(born, wins[..|wins| - 1])
      else if w.call.req.lifetime > 0 then w.call.req.lifetime else w.snap.lifetime
  }

  lemma {:induction false} ReplayTimes(born: KV, wins: seq<Win>)
    ensures Replay(born, wins).expiredAt == LastExpiry(born, wins)
    ensures Replay(born, wins).lifetime == LastLifetime(born, wins)
  {
    if wins != [] {
      ReplayTimes(born, wins[..|wins| - 1]);
    }
  }

  /**
   The whole row on every run, its creation included: the value is that of the last Set or Store, the
   expiry that of the last Set or Incr, the lifetime that of the last Incr, each starting from what the
   creating request wrote, and the version and count start from its 1 and from 0 or its increment.
   */
  lemma ColumnsAreLast(st0: State, trace: seq<Event>)
    requires Initial(st0) && Legal(st0, trace) && Run(st0, trace).row.Some?
    ensures var st := Run(st0, trace); var kv := st.row.value;
      && kv.value == LastValue(st.born, st.wins)
      && kv.expiredAt == LastExpiry(st.born, st.wins)
      && kv.lifetime == LastLifetime(st.born, st.wins)
      && kv.version == st.born.version + |st.wins|
      && kv.count == st.born.count + Added(st.wins) + Drift(st.born, st.wins)
    ensures var st := Run(st0, trace);
      st.maker.Some? ==>
        var call, born := st.maker.value.call, st.born;
        && born.version == 1
        && born.value == (if call.req.Incr? then "" else call.req.value)
        && born.count == (if !call.req.Incr? then 0 else if call.req.n == 0 then 1 else call.req.n)
        && born.lifetime == (if call.req.Incr? || call.req.lifetime < 0 then 0 else call.req.lifetime)
        && born.expiredAt == call.now + (if call.req.lifetime > 0 then call.req.lifetime
                                         else if call.req.Incr? then st.maker.value.oldLifetime else 0)
  {
    CountExactIff(st0, trace);
    RunKeepsInv(st0, trace);
    var st := Run(st0, trace);
    ReplayTimes(st.born, st.wins);
  }

  predicate NoDeletion(trace: seq<Event>) {
    forall i | 0 <= i < |trace| :: !trace[i].Del? && !trace[i].Purge?
  }

  lemma {:induction false} ExactRunsStayHarmless(st: State, trace: seq<Event>)
    requires Inv(st) && Legal(st, trace) && NoDeletion(trace)
    requires st.row.Some? ==> AllHarmless(st.born, st.wins) && Drift(st.born, st.wins) == 0
    requires forall c | c in st.clients && st.clients[c].Updating? :: st.clients[c].epoch == st.epoch
    ensures var st' := Run(st, trace);
      st'.row.Some? ==> AllHarmless(st'.born, st'.wins) && Drift(st'.born, st'.wins) == 0
    decreases |trace|
  {
    if trace != [] {
      var e, st1 := trace[0], Apply(st, trace[0]);
      StepKeepsInv(st, e);
      assert !e.Del? && !e.Purge?;
      assert NoDeletion(trace[1..]);
      if e.Update? {
        assert SnapshotOk(st, e.c);
        assert (st.wins + [Win(st.clients[e.c].call, st.clients[e.c].snap)])[..|st.wins|] == st.wins;
      }
      ExactRunsStayHarmless(st1, trace[1..]);
    }
  }

  /** Without Del and without expiry no increment is ever lost or doubled. */
  lemma CounterIsExact(st0: State, trace: seq<Event>)
    requires Initial(st0) && Legal(st0, trace) && NoDeletion(trace) && Run(st0, trace).row.Some?
    ensures var st := Run(st0, trace);
      && st.row == Some(InTurn(st.born, st.wins))
      && st.row.value.version == st.born.version + |st.wins|
      && st.row.value.count == st.born.count + Added(st.wins)
      && st.row.value.value == LastValue(st.born, st.wins)
  {
    ExactRunsStayHarmless(st0, trace);
    CountExactIff(st0, trace);
    SequentialIff(st0, trace);
  }

  // ---------------------------------------------------------------------------------------------
  // What goes wrong across a deletion
  // ---------------------------------------------------------------------------------------------

  lemma OneStep(st: State, e: Event, rest: seq<Event>)
    requires Enabled(st, e) && Legal(Apply(st, e), rest)
    ensures Legal(st, [e] + rest) && Run(st, [e] + rest) == Run(Apply(st, e), rest)
  {
    assert ([e] + rest)[1..] == rest;
  }

  lemma TwoSteps(st: State, e: Event, e': Event, rest: seq<Event>)
    requires Enabled(st, e) && Enabled(Apply(st, e), e') && Legal(Apply(Apply(st, e), e'), rest)
    ensures Legal(st, [e, e'] + rest) && Run(st, [e, e'] + rest) == Run(Apply(Apply(st, e), e'), rest)
  {
    OneStep(Apply(st, e), e', rest);
    OneStep(st, e, [e'] + rest);
    assert [e] + ([e'] + rest) == [e, e'] + rest;
  }

  function Adding(now: int): Call {
    Call(Incr(1, 0), now)
  }

  /** Request 0 reads version 1 of this row. */
  function Before(): KV {
    KV("", 40, 0, 0, 1)
  }

  /** Request 1 finds no row and creates this one. */
  function After(): KV {
    KV("", 1, 0, 11, 1)
  }

  /** Request 0 then matches the new row's version 1 and brings the deleted count back. */
  function CrossingRun(): seq<Event> {
    [Look(0, Adding(10), false), Del] + ([Look(1, Adding(11), false), Create(1)] + [Update(0)])
  }

  function CrossingEnd(): State {
    State(Some(KV("", 41, 0, 10, 2)), map[0 := Finished, 1 := Finished], 1,
          After(), Some(Making(Adding(11), 0)), [Win(Adding(10), Before())])
  }

  lemma CrossingUpdate()
    ensures var waiting := Updating(Adding(10), Before(), 0);
      var st := State(Some(After()), map[0 := waiting, 1 := Finished], 1, After(), Some(Making(Adding(11), 0)), []);
      Legal(st, [Update(0)]) && Run(st, [Update(0)]) == CrossingEnd()
  {
    var waiting := Updating(Adding(10), Before(), 0);
    var st := State(Some(After()), map[0 := waiting, 1 := Finished], 1, After(), Some(Making(Adding(11), 0)), []);
    assert [Update(0)][1..] == [];
    assert Apply(st, Update(0)).clients == CrossingEnd().clients;
  }

  lemma CrossingCreate()
    ensures var st := State(None, map[0 := Updating(Adding(10), Before(), 0)], 1, Before(), None, []);
      var trace := [Look(1, Adding(11), false), Create(1)] + [Update(0)];
      Legal(st, trace) && Run(st, trace) == CrossingEnd()
  {
    CrossingUpdate();
    var waiting := Updating(Adding(10), Before(), 0);
    var st := State(None, map[0 := waiting], 1, Before(), None, []);
    var made := Apply(Apply(st, Look(1, Adding(11), false)), Create(1));
    assert made.clients == map[0 := waiting, 1 := Finished];
    TwoSteps(st, Look(1, Adding(11), false), Create(1), [Update(0)]);
  }

  /**
   A version is not enough across a deletion: from a row with count 40 the run ends with count 41,
   although the row then there was created with count 1 and one increment of 1 matched.
   */
  lemma DeletionBreaksTheCount()
    ensures var st0 := State(Some(Before()), map[], 0, Before(), None, []);
      && Initial(st0) && Legal(st0, CrossingRun())
      && var st := Run(st0, CrossingRun());
         && st.row.Some? && st.born.count == 1 && Added(st.wins) == 1 && st.row.value.count == 41
         && Drift(st.born, st.wins) == 39
  {
    CrossingCreate();
    var st0 := State(Some(Before()), map[], 0, Before(), None, []);
    TwoSteps(st0, Look(0, Adding(10), false), Del, [Look(1, Adding(11), false), Create(1)] + [Update(0)]);
    CountExactIff(st0, CrossingRun());
  }

  function Setting(value: string): Call {
    Call(Set(value, 5), 10)
  }

  /** Requests 0 and 1 find the same expired row; request 1 replaces it, and request 0 deletes the replacement. */
  function LateRun(): seq<Event> {
    [Look(0, Setting("a"), true), Look(1, Setting("b"), true)] + ([Purge(1), Create(1)] + [Purge(0)])
  }

  lemma LateReplace()
    ensures var old0, old1 := Purging(Setting("a"), Before(), 0), Purging(Setting("b"), Before(), 0);
      var st := State(Some(Before()), map[0 := old0, 1 := old1], 0, Before(), None, []);
      var trace := [Purge(1), Create(1)] + [Purge(0)];
      && Legal(st, trace)
      && Run(st, [Purge(1), Create(1)]).row == Some(KV("b", 0, 5, 15, 1))
      && Run(st, trace).row == None
  {
    var old0, old1 := Purging(Setting("a"), Before(), 0), Purging(Setting("b"), Before(), 0);
    var st := State(Some(Before()), map[0 := old0, 1 := old1], 0, Before(), None, []);
    var st1 := Apply(st, Purge(1));
    assert st1.clients == map[0 := old0, 1 := Creating(Setting("b"), 0)];
    var st2 := Apply(st1, Create(1));
    assert st2.clients == map[0 := old0, 1 := Finished];
    assert [Purge(0)][1..] == [];
    TwoSteps(st, Purge(1), Create(1), [Purge(0)]);
    TwoSteps(st, Purge(1), Create(1), []);
    assert [Purge(1), Create(1)] + [] == [Purge(1), Create(1)];
  }

  /** So on the expiry path a fresh row can be deleted by a request that never read it. */
  lemma ExpiryDeletesFreshRow()
    ensures var st0 := State(Some(Before()), map[], 0, Before(), None, []);
      var replacing := [Look(0, Setting("a"), true), Look(1, Setting("b"), true)] + [Purge(1), Create(1)];
      && Initial(st0) && Legal(st0, replacing) && Run(st0, replacing).row == Some(KV("b", 0, 5, 15, 1))
      && Legal(st0, LateRun()) && Run(st0, LateRun()).row == None
  {
    LateReplace();
    var st0 := State(Some(Before()), map[], 0, Before(), None, []);
    var e, e' := Look(0, Setting("a"), true), Look(1, Setting("b"), true);
    var old0, old1 := Purging(Setting("a"), Before(), 0), Purging(Setting("b"), Before(), 0);
    assert Apply(Apply(st0, e), e').clients == map[0 := old0, 1 := old1];
    TwoSteps(st0, e, e', [Purge(1), Create(1)]);
    TwoSteps(st0, e, e', [Purge(1), Create(1)] + [Purge(0)]);
  }

  // ---------------------------------------------------------------------------------------------
  // One request run without interruption
  // ---------------------------------------------------------------------------------------------

  /** The row it leaves: a live row updated, a missing or expired one replaced. */
  function Undisturbed(row: Option<KV>, call: Call, expired: bool): KV {
    match row
    case None => Fresh(call, 0)
    case Some(snap) => if expired then Fresh(call, snap.lifetime) else Written(call, snap, snap)
  }

  function RequestTrace(row: Option<KV>, c: nat, call: Call, expired: bool): seq<Event> {
    if row == None then [Look(c, call, expired)] + [Create(c)]
    else if expired then [Look(c, call, expired)] + ([Purge(c)] + [Create(c)])
    else [Look(c, call, expired)] + [Update(c)]
  }

  /** One request whose steps nothing comes between, as a run of the concurrent model. */
  lemma RequestIsRun(st: State, c: nat, call: Call, expired: bool)
    requires c !in st.clients
    ensures var trace := RequestTrace(st.row, c, call, expired);
      && Legal(st, trace)
      && Run(st, trace).row == Some(Undisturbed(st.row, call, expired))
      && Run(st, trace).clients == st.clients[c := Finished]
  {
    var look := Look(c, call, expired);
    var st1 := Apply(st, look);
    assert [Create(c)][1..] == [] && [Update(c)][1..] == [];
    if st.row == None {
      OneStep(st, look, [Create(c)]);
    } else if expired {
      OneStep(st1, Purge(c), [Create(c)]);
      OneStep(st, look, [Purge(c)] + [Create(c)]);
    } else {
      OneStep(st, look, [Update(c)]);
    }
  }

  class Table {
    var row: Option<KV>

    /** DELETE WHERE bucket, key and, if given, version match. */
    method Delete(version: Option<int>)
      modifies this
      ensures row == if version.Some? && old(row).Some? && old(row).value.version != version.value then old(row) else None
    {
      if row.Some? && (version == None || row.value.version == version.value) {
        row := None;
      }
    }

    /** INSERT; (bucket, key) is unique. */
    method Create(kv: KV) returns (ok: bool)
      modifies this
      ensures ok == old(row).None? && row == if ok then Some(kv) else old(row)
    {
      ok := row == None;
      if ok {
        row := Some(kv);
      }
    }

    /** UPDATE WHERE version = snap.version. */
    method UpdateWhere(snap: KV, call: Call)
      modifies this
      ensures row == if Matches(old(row), snap) then Some(Written(call, snap, old(row).value)) else old(row)
    {
      if row == None || row.value.version != snap.version {
        return;
      }
      var kv := row.value;
      match call.req {
        case Set(value, lifetime) =>
          var d := if lifetime < 0 then 0 else lifetime;
          if d <= 0 {
            d := snap.lifetime;
          }
          kv := kv.(value := value, expiredAt := call.now + d);
        case Store(value, _) =>
          kv := kv.(value := value);
        case Incr(n, lifetime) =>
          var m, d := n, lifetime;
          if m == 0 {
            m := 1;
          }
          if d <= 0 {
            d := snap.lifetime;
          }
          kv := kv.(count := snap.count + m, lifetime := d, expiredAt := call.now + d);
      }
      row := Some(kv.(version := snap.version + 1));
    }

    /** The three requests, run without interruption. */
    method Request(call: Call, expired: bool) returns (ok: bool)
      modifies this
      ensures ok && row == Some(Undisturbed(old(row), call, expired))
    {
      var found := row;
      if found == None || expired {
        if found.Some? {
          Delete(if call.req.Incr? then None else Some(found.value.version));
        }
        var kv := KV("", 0, 0, call.now, 1);
        match call.req {
          case Incr(n, lifetime) =>
            var d := lifetime;
            if d <= 0 {
              d := if found.Some? then found.value.lifetime else 0;
            }
            kv := kv.(count := if n == 0 then 1 else n, expiredAt := call.now + d);
          case _ =>
            var d := call.req.lifetime;
            if d < 0 {
              d := 0;
            }
            kv := kv.(value := call.req.value, lifetime := d, expiredAt := call.now + d);
        }
        ok := Create(kv);
      } else {
        UpdateWhere(found.value, call);
        ok := true;
      }
    }
  }
}
