/**
 The presence protocol of channel/serverd/server.go, for any number of brokers over one table.

 Unlike the protocol of bridge/mlink/hub.go it ignores how many rows the online update changed and
 relies on each broker's in-memory hub (`huber`, put-if-absent and delete-by-id) for exclusion.
 */
module AgentServer {
  import opened MinionTable

  datatype Phase =
    | Found      // the status check passed
    | Held       // huber.Put succeeded, the online update is next
    | Undoing    // the online update failed, DelByID is next
    | Joined     // the online update answered, the auth response is next
    | Serving    // the response was written; srv.Serve is running
    | Stopped    // srv.Serve returned, the offline update is next
    | Offlined   // DelByID is next
    | Abandoned  // the response could not be written: nothing is undone
    | Done

  /** `hit` is history: the online update answered and had changed the row, which the code does not look at. */
  datatype Session = Session(broker: int, minion: int, phase: Phase, hit: bool)

  /** How the database answers findOrCreate; `create` matters only if there is no row. */
  datatype Lookup = LookupFails | Looked(create: Reply)

  /**
   `hub` is keyed by (broker, minion). `lost` is a history variable: the minions whose row an update
   left online although its caller saw an error, or that were online before the run began.
   */
  datatype State = State(
    rows: map<int, Row>,
    hub: map<(int, int), nat>,
    sessions: map<nat, Session>,
    lost: set<int>
  )

  datatype Event =
    | Find(s: nat, broker: int, minion: int, db: Lookup)
    | Put(s: nat)
    | Update(s: nat, reply: Reply)
    | Respond(s: nat, ok: bool)
    | ServeEnd(s: nat)
    | GoOffline(s: nat, reply: Reply)
    | DelByID(s: nat)
    | Restart(b: int, reply: Reply)

  predicate In(st: State, s: nat, p: Phase) {
    s in st.sessions && st.sessions[s].phase == p
  }

  predicate Enabled(st: State, e: Event) {
    match e
    case Find(s, _, _, _) => s !in st.sessions
    case Put(s) => In(st, s, Found)
    case Update(s, _) => In(st, s, Held)
    case Respond(s, _) => In(st, s, Joined)
    case ServeEnd(s) => In(st, s, Serving)
    case GoOffline(s, _) => In(st, s, Stopped)
    case DelByID(s) => In(st, s, Undoing) || In(st, s, Offlined)
    case Restart(_, _) => true
  }

  function Moved(st: State, s: nat, p: Phase): map<nat, Session>
    requires s in st.sessions
  {
    st.sessions[s := st.sessions[s].(phase := p)]
  }

  function Key(st: State, s: nat): (int, int)
    requires s in st.sessions
  {
    (st.sessions[s].broker, st.sessions[s].minion)
  }

  /** The status switch lets only offline and inactive rows go on. */
  predicate Admits(rows: map<int, Row>, m: int) {
    m in rows && (rows[m].status.Offline? || rows[m].status.Inactive?)
  }

  /** findOrCreate returns a row. */
  predicate Known(rows: map<int, Row>, m: int, db: Lookup) {
    db.Looked? && Finds(rows, m, db.create)
  }

  function FindStep(st: State, s: nat, b: int, m: int, db: Lookup): State {
    var rows := if db.LookupFails? then st.rows else Created(st.rows, m, db.create);
    if Known(st.rows, m, db) && Admits(rows, m) then
      st.(rows := rows, sessions := st.sessions[s := Session(b, m, Found, false)])
    else
      st.(rows := rows)
  }

  function PutStep(st: State, s: nat): State
    requires s in st.sessions
  {
    if Key(st, s) in st.hub then st.(sessions := Moved(st, s, Done))
    else st.(hub := st.hub[Key(st, s) := s], sessions := Moved(st, s, Held))
  }

  predicate Hits(st: State, s: nat)
    requires s in st.sessions
  {
    st.sessions[s].minion in st.rows && st.rows[st.sessions[s].minion].status.Offline?
  }

  /** UPDATE ... SET status = online WHERE id = m AND status = offline; only an error matters. */
  function UpdateStep(st: State, s: nat, reply: Reply): State
    requires s in st.sessions
  {
    var x := st.sessions[s];
    var rows := if Hits(st, s) && reply != Failed(false) then st.rows[x.minion := Row(Online, x.broker)] else st.rows;
    var phase := if reply.Answered? then Joined else Undoing;
    st.(rows := rows,
        sessions := st.sessions[s := x.(phase := phase, hit := Hits(st, s) && reply.Answered?)],
        lost := if Hits(st, s) && reply == Failed(true) then st.lost + {x.minion} else st.lost)
  }

  /** UPDATE ... SET status = offline WHERE id = m AND status = online AND broker_id = b; an error is only logged. */
  function GoOfflineStep(st: State, s: nat, reply: Reply): State
    requires s in st.sessions
  {
    var m, b := st.sessions[s].minion, st.sessions[s].broker;
    var moved := st.(sessions := Moved(st, s, Offlined));
    if m !in st.rows || st.rows[m] != Row(Online, b) then moved
    else if reply == Failed(false) then moved.(lost := st.lost + {m})
    else moved.(rows := st.rows[m := Row(Offline, b)], lost := st.lost - {m})
  }

  function DelByIDStep(st: State, s: nat): State
    requires s in st.sessions
  {
    st.(hub := st.hub - {Key(st, s)}, sessions := Moved(st, s, Done))
  }

  function Dropped(sessions: map<nat, Session>, b: int): map<nat, Session> {
    map s | s in sessions :: if sessions[s].broker == b then sessions[s].(phase := Done) else sessions[s]
  }

  /** The broker process dies and starts again: its sessions and hub are gone, ResetAgents runs. */
  function RestartStep(st: State, b: int, reply: Reply): State {
    var rows := ResetRows(st.rows, b, reply);
    State(rows, Survivors(st.hub, b), Dropped(st.sessions, b), Unowned(rows, st.lost, b))
  }

  function Apply(st: State, e: Event): State
    requires Enabled(st, e)
  {
    match e
    case Find(s, b, m, db) => FindStep(st, s, b, m, db)
    case Put(s) => PutStep(st, s)
    case Update(s, reply) => UpdateStep(st, s, reply)
    case Respond(s, ok) => st.(sessions := Moved(st, s, if ok then Serving else Abandoned))
    case ServeEnd(s) => st.(sessions := Moved(st, s, Stopped))
    case GoOffline(s, reply) => GoOfflineStep(st, s, reply)
    case DelByID(s) => DelByIDStep(st, s)
    case Restart(b, reply) => RestartStep(st, b, reply)
  }

  predicate Legal(st: State, trace: seq<Event>)
    decreases |trace|
  {
    trace == [] || (Enabled(st, trace[0]) && Legal(Apply(st, trace[0]), trace[1..]))
  }

  function Run(st: State, trace: seq<Event>): State
    requires Legal(st, trace)
    decreases |trace|
  {
    if trace == [] then st else Run(Apply(st, trace[0]), trace[1..])
  }

  ghost predicate Initial(st: State) {
    && st.hub == map[] && st.sessions == map[]
    && st.lost == set m | m in st.rows && st.rows[m].status.Online?
  }

  // ---------------------------------------------------------------------------------------------
  // The invariant of any number of brokers
  // ---------------------------------------------------------------------------------------------

  predicate Holding(p: Phase) {
    !p.Found? && !p.Done?
  }

  /** The online update answered and the offline update has not run. */
  predicate Up(p: Phase) {
    p.Joined? || p.Serving? || p.Stopped? || p.Abandoned?
  }

  ghost predicate UpFor(st: State, s: nat, m: int) {
    s in st.sessions && st.sessions[s].minion == m && Up(st.sessions[s].phase)
  }

  /** An owner is up and its online update had changed the row. */
  ghost predicate Owner(st: State, s: nat, m: int) {
    UpFor(st, s, m) && st.sessions[s].hit
  }

  /** Each hub holds exactly its broker's sessions between Put and DelByID, each under its own minion. */
  ghost predicate HubExact(st: State) {
    EntriesHold(st) && HoldersEntered(st)
  }

  ghost predicate EntriesHold(st: State) {
    forall k | k in st.hub ::
      st.hub[k] in st.sessions && Key(st, st.hub[k]) == k && Holding(st.sessions[st.hub[k]].phase)
  }

  ghost predicate HoldersEntered(st: State) {
    forall s | s in st.sessions && Holding(st.sessions[s].phase) :: Key(st, s) in st.hub && st.hub[Key(st, s)] == s
  }

  ghost predicate OwnersHold(st: State) {
    forall s, m | Owner(st, s, m) ::
      m in st.rows && st.rows[m] == Row(Online, st.sessions[s].broker) && m !in st.lost
  }

  ghost predicate OnlineExplained(st: State) {
    forall m | IsOnline(st.rows, m) :: m in st.lost || exists s :: Owner(st, s, m)
  }

  ghost predicate LostOnline(st: State) {
    forall m | m in st.lost :: IsOnline(st.rows, m)
  }

  /** The row of a minion that has a session is offline, online or inactive. */
  ghost predicate RowsKnown(st: State) {
    forall s | s in st.sessions ::
      var m := st.sessions[s].minion; Admits(st.rows, m) || IsOnline(st.rows, m)
  }

  ghost predicate Inv(st: State) {
    HubExact(st) && OwnersHold(st) && OnlineExplained(st) && LostOnline(st) && RowsKnown(st)
  }

  lemma StepKeepsEntries(st: State, e: Event)
    requires HubExact(st) && Enabled(st, e)
    ensures EntriesHold(Apply(st, e))
  {
  }

  lemma StepKeepsHolders(st: State, e: Event)
    requires HubExact(st) && Enabled(st, e)
    ensures HoldersEntered(Apply(st, e))
  {
    var st' := Apply(st, e);
    forall s | s in st'.sessions && Holding(st'.sessions[s].phase)
      ensures Key(st', s) in st'.hub && st'.hub[Key(st', s)] == s
    {
      if !(e.Put? && e.s == s) {
        assert s in st.sessions && Holding(st.sessions[s].phase);
      }
    }
  }

  /** Two sessions that hold are of different brokers or of different minions. */
  lemma KeysDiffer(st: State, s: nat, t: nat)
    requires HubExact(st) && s != t && s in st.sessions && t in st.sessions
    requires Holding(st.sessions[s].phase) && Holding(st.sessions[t].phase)
    ensures Key(st, s) != Key(st, t)
  {
    assert st.hub[Key(st, s)] == s && st.hub[Key(st, t)] == t;
  }

  lemma StepKeepsOwners(st: State, e: Event)
    requires Inv(st) && Enabled(st, e)
    ensures OwnersHold(Apply(st, e))
  {
    var st' := Apply(st, e);
    forall t, m | Owner(st', t, m)
      ensures m in st'.rows && st'.rows[m] == Row(Online, st'.sessions[t].broker) && m !in st'.lost
    {
      if !(e.Update? && e.s == t) {
        assert Owner(st, t, m);
        if e.GoOffline? && t != e.s {
          KeysDiffer(st, e.s, t);
        }
      }
    }
  }

  lemma StepKeepsExplained(st: State, e: Event)
    requires Inv(st) && Enabled(st, e)
    ensures OnlineExplained(Apply(st, e))
  {
    var st' := Apply(st, e);
    forall m | IsOnline(st'.rows, m) && m !in st'.lost ensures exists t :: Owner(st', t, m) {
      if e.Update? && m == st.sessions[e.s].minion && Hits(st, e.s) {
        assert Owner(st', e.s, m);
      } else {
        assert IsOnline(st.rows, m);
        if m !in st.lost {
          var t :| Owner(st, t, m);
          assert Owner(st', t, m);
        }
      }
    }
  }

  lemma StepKeepsLost(st: State, e: Event)
    requires Inv(st) && Enabled(st, e)
    ensures LostOnline(Apply(st, e))
  {
  }

  lemma StepKeepsRows(st: State, e: Event)
    requires Inv(st) && Enabled(st, e)
    ensures RowsKnown(Apply(st, e))
  {
  }

  lemma StepKeepsInv(st: State, e: Event)
    requires Inv(st) && Enabled(st, e)
    ensures Inv(Apply(st, e))
  {
    StepKeepsEntries(st, e);
    StepKeepsHolders(st, e);
    StepKeepsOwners(st, e);
    StepKeepsExplained(st, e);
    StepKeepsLost(st, e);
    StepKeepsRows(st, e);
  }

  lemma {:induction false} RunKeepsInv(st: State, trace: seq<Event>)
    requires Inv(st) && Legal(st, trace)
    ensures Inv(Run(st, trace))
    decreases |trace|
  {
    if trace != [] {
      StepKeepsInv(st, trace[0]);
      RunKeepsInv(Apply(st, trace[0]), trace[1..]);
    }
  }

  // ---------------------------------------------------------------------------------------------
  // Safety over whole runs of any number of brokers
  // ---------------------------------------------------------------------------------------------

  /** Each hub excludes: two sessions of one minion on one broker are never both between Put and DelByID. */
  lemma AtMostOneHolding(st0: State, trace: seq<Event>, s: nat, t: nat)
    requires Initial(st0) && Legal(st0, trace)
    requires var st := Run(st0, trace);
      && s in st.sessions && t in st.sessions && Key(st, s) == Key(st, t)
      && Holding(st.sessions[s].phase) && Holding(st.sessions[t].phase)
    ensures s == t
  {
    RunKeepsInv(st0, trace);
  }

  /**
   Across brokers only the affected row count could exclude: of all sessions of one minion that are
   up, at most one had changed the row, and the row is online under that one's broker.
   */
  lemma AtMostOneOwner(st0: State, trace: seq<Event>, s: nat, t: nat, m: int)
    requires Initial(st0) && Legal(st0, trace)
    requires UpFor(Run(st0, trace), s, m) && UpFor(Run(st0, trace), t, m)
    ensures var st := Run(st0, trace);
      && (st.sessions[s].hit ==> m in st.rows && st.rows[m] == Row(Online, st.sessions[s].broker))
      && (s != t ==> st.sessions[s].broker != st.sessions[t].broker)
      && (s != t ==> !st.sessions[s].hit || !st.sessions[t].hit)
  {
    RunKeepsInv(st0, trace);
    var st := Run(st0, trace);
    assert st.sessions[s].hit ==> Owner(st, s, m);
    assert st.sessions[t].hit ==> Owner(st, t, m);
  }

  /**
   The online update of a session that holds its hub entry changes its row if and only if the row is
   not inactive, not left over from a lost update, and not owned by a session on another broker.
   */
  lemma OnlineUpdateHitsIff(st0: State, trace: seq<Event>, s: nat)
    requires Initial(st0) && Legal(st0, trace) && In(Run(st0, trace), s, Held)
    ensures var st := Run(st0, trace); var m := st.sessions[s].minion;
      && (Hits(st, s) <==> !InactiveRow(st.rows, m) && m !in st.lost && forall t :: !Owner(st, t, m))
      && (forall t | Owner(st, t, m) :: st.sessions[t].broker != st.sessions[s].broker)
  {
    RunKeepsInv(st0, trace);
    var st := Run(st0, trace);
    var m := st.sessions[s].minion;
    forall t | Owner(st, t, m) ensures st.sessions[t].broker != st.sessions[s].broker {
      KeysDiffer(st, s, t);
    }
  }

  /**
   One step of that: leaving aside inactive rows and lost updates, an answered update leaves an owner on
   another broker beside its session exactly when it changed no row.
   */
  lemma ServedTwiceIff(st0: State, trace: seq<Event>, s: nat)
    requires Initial(st0) && Legal(st0, trace) && In(Run(st0, trace), s, Held)
    requires var st := Run(st0, trace); var m := st.sessions[s].minion; !InactiveRow(st.rows, m) && m !in st.lost
    ensures var st := Run(st0, trace); var m := st.sessions[s].minion; var st' := Apply(st, Update(s, Answered));
      && In(st', s, Joined)
      && ((exists t :: t != s && Owner(st', t, m)) <==> !Hits(st, s))
  {
    OnlineUpdateHitsIff(st0, trace, s);
    var st := Run(st0, trace);
    var m, st' := st.sessions[s].minion, Apply(st, Update(s, Answered));
    if !Hits(st, s) {
      var t :| Owner(st, t, m);
      assert t != s && Owner(st', t, m);
    }
    if t :| t != s && Owner(st', t, m) {
      assert Owner(st, t, m);
    }
  }

  // ---------------------------------------------------------------------------------------------
  // When at most one session of a minion is up
  // ---------------------------------------------------------------------------------------------

  ghost predicate OneUp(st: State, m: int) {
    forall s, t | UpFor(st, s, m) && UpFor(st, t, m) :: s == t
  }

  /** In every state of the run, on all brokers together, at most one session of m is up. */
  ghost predicate OneUpThroughout(st: State, trace: seq<Event>, m: int)
    requires Legal(st, trace)
    decreases |trace|
  {
    OneUp(st, m) && (trace == [] || OneUpThroughout(Apply(st, trace[0]), trace[1..], m))
  }

  /** The step is an online update for m that answers: join then goes on without looking at the row count. */
  predicate Answers(st: State, e: Event, m: int)
    requires Enabled(st, e)
  {
    e.Update? && e.reply.Answered? && st.sessions[e.s].minion == m
  }

  /** Every online update for m that answers changes one row. */
  predicate UpdatesHit(st: State, trace: seq<Event>, m: int)
    requires Legal(st, trace)
    decreases |trace|
  {
    trace == [] ||
      ((Answers(st, trace[0], m) ==> Hits(st, trace[0].s)) && UpdatesHit(Apply(st, trace[0]), trace[1..], m))
  }

  /** At no moment is m's row online because of an update whose caller saw an error. */
  predicate NeverLost(st: State, trace: seq<Event>, m: int)
    requires Legal(st, trace)
    decreases |trace|
  {
    m !in st.lost && (trace == [] || NeverLost(Apply(st, trace[0]), trace[1..], m))
  }

  ghost predicate AllHit(st: State, m: int) {
    forall s | UpFor(st, s, m) :: st.sessions[s].hit
  }

  lemma HitsMakeOneUp(st: State, m: int)
    requires Inv(st) && AllHit(st, m)
    ensures OneUp(st, m)
  {
    forall s, t | UpFor(st, s, m) && UpFor(st, t, m) ensures s == t {
      assert Owner(st, s, m) && Owner(st, t, m);
      if s != t {
        KeysDiffer(st, s, t);
      }
    }
  }

  lemma StepKeepsAllHit(st: State, e: Event, m: int)
    requires Inv(st) && AllHit(st, m) && Enabled(st, e) && (Answers(st, e, m) ==> Hits(st, e.s))
    ensures AllHit(Apply(st, e), m)
  {
    var st' := Apply(st, e);
    forall s | UpFor(st', s, m) ensures st'.sessions[s].hit {
      if !(e.Update? && e.s == s) {
        assert UpFor(st, s, m);
      }
    }
  }

  /** An update that answers and changes nothing brings its session up beside the owner of the online row. */
  lemma MissMakesTwoUp(st: State, e: Event, m: int)
    requires Inv(st) && Enabled(st, e) && Answers(st, e, m) && !Hits(st, e.s)
    requires m !in st.lost && !InactiveRow(st.rows, m)
    ensures !OneUp(Apply(st, e), m)
  {
    var t :| Owner(st, t, m);
    assert UpFor(Apply(st, e), t, m) && UpFor(Apply(st, e), e.s, m);
  }

  /**
   At most one session of a minion is up in every state of a run, whatever the number of brokers, if
   and only if every online update that answered had changed its row: what join does not look at is
   exactly what would have to be checked. This leaves aside inactive rows and lost updates.
   */
  lemma {:induction false} OneUpIff(st: State, trace: seq<Event>, m: int)
    requires Inv(st) && AllHit(st, m) && !InactiveRow(st.rows, m)
    requires Legal(st, trace) && NeverLost(st, trace, m)
    ensures OneUpThroughout(st, trace, m) <==> UpdatesHit(st, trace, m)
    decreases |trace|
  {
    HitsMakeOneUp(st, m);
    if trace != [] {
      var e, st1 := trace[0], Apply(st, trace[0]);
      StepKeepsInv(st, e);
      if Answers(st, e, m) && !Hits(st, e.s) {
        MissMakesTwoUp(st, e, m);
        assert !OneUpThroughout(st1, trace[1..], m);
      } else {
        StepKeepsAllHit(st, e, m);
        assert !InactiveRow(st1.rows, m);
        OneUpIff(st1, trace[1..], m);
      }
    }
  }

  predicate AllAnswered(trace: seq<Event>) {
    forall i | 0 <= i < |trace| ::
      (trace[i].Update? || trace[i].GoOffline? || trace[i].Restart?) ==> trace[i].reply.Answered?
  }

  lemma {:induction false} AnsweredNeverLost(st: State, trace: seq<Event>, m: int)
    requires Inv(st) && Legal(st, trace) && AllAnswered(trace) && m !in st.lost
    ensures NeverLost(st, trace, m)
    decreases |trace|
  {
    if trace != [] {
      StepKeepsInv(st, trace[0]);
      assert Apply(st, trace[0]).lost <= st.lost;
      assert AllAnswered(trace[1..]);
      AnsweredNeverLost(Apply(st, trace[0]), trace[1..], m);
    }
  }

  /** In particular from any table in which the row is neither online nor inactive, if every update answers. */
  lemma OneServedIff(st0: State, trace: seq<Event>, m: int)
    requires Initial(st0) && !IsOnline(st0.rows, m) && !InactiveRow(st0.rows, m)
    requires Legal(st0, trace) && AllAnswered(trace)
    ensures OneUpThroughout(st0, trace, m) <==> UpdatesHit(st0, trace, m)
  {
    AnsweredNeverLost(st0, trace, m);
    OneUpIff(st0, trace, m);
  }

  lemma {:induction false} AnsweredRunsLoseNothing(st: State, trace: seq<Event>)
    requires Inv(st) && Legal(st, trace) && AllAnswered(trace)
    ensures Run(st, trace).lost <= st.lost
    decreases |trace|
  {
    if trace != [] {
      var e, st1 := trace[0], Apply(st, trace[0]);
      StepKeepsInv(st, e);
      assert st1.lost <= st.lost;
      assert AllAnswered(trace[1..]);
      AnsweredRunsLoseNothing(st1, trace[1..]);
    }
  }

  predicate InactiveRow(rows: map<int, Row>, m: int) {
    m in rows && rows[m].status.Inactive?
  }

  /** No step activates or deactivates a row. */
  lemma {:induction false} InactiveStays(st: State, trace: seq<Event>, m: int)
    requires Legal(st, trace)
    ensures InactiveRow(Run(st, trace).rows, m) <==> InactiveRow(st.rows, m)
    decreases |trace|
  {
    if trace != [] {
      assert InactiveRow(Apply(st, trace[0]).rows, m) <==> InactiveRow(st.rows, m);
      InactiveStays(Apply(st, trace[0]), trace[1..], m);
    }
  }

  /** DelByID takes only the id, yet the entry it removes is always the session's own. */
  lemma DelByIDRemovesOwn(st0: State, trace: seq<Event>, s: nat)
    requires Initial(st0) && Legal(st0, trace) && Enabled(Run(st0, trace), DelByID(s))
    ensures var st := Run(st0, trace); var m := st.sessions[s].minion;
      && Key(st, s) in st.hub && st.hub[Key(st, s)] == s
      && (IsOnline(st.rows, m) <==>
            m in st.lost || exists t :: Owner(st, t, m) && st.sessions[t].broker != st.sessions[s].broker)
  {
    RunKeepsInv(st0, trace);
    var st := Run(st0, trace);
    var m := st.sessions[s].minion;
    if IsOnline(st.rows, m) && m !in st.lost {
      var t :| Owner(st, t, m);
      KeysDiffer(st, s, t);
    }
  }

  ghost predicate AbandonedFor(st: State, s: nat, k: (int, int)) {
    In(st, s, Abandoned) && Key(st, s) == k
  }

  ghost predicate AbandonedOwner(st: State, s: nat, m: int) {
    In(st, s, Abandoned) && Owner(st, s, m)
  }

  /** When no session is under way, the hubs hold exactly the minions whose auth response was lost. */
  lemma QuiescentState(st0: State, trace: seq<Event>, b: int, m: int)
    requires Initial(st0) && Legal(st0, trace)
    requires forall s | s in Run(st0, trace).sessions ::
      var p := Run(st0, trace).sessions[s].phase; p.Done? || p.Abandoned?
    ensures var st := Run(st0, trace);
      && ((b, m) in st.hub <==> exists s :: AbandonedFor(st, s, (b, m)))
      && (IsOnline(st.rows, m) <==> m in st.lost || exists s :: AbandonedOwner(st, s, m))
  {
    RunKeepsInv(st0, trace);
    var st := Run(st0, trace);
    if (b, m) in st.hub {
      assert AbandonedFor(st, st.hub[(b, m)], (b, m));
    }
    if IsOnline(st.rows, m) && m !in st.lost {
      var t :| Owner(st, t, m);
      assert AbandonedOwner(st, t, m);
    }
  }

  /** With every response written and every update answered, a run from an offline table ends clean. */
  lemma CleanRunsEndClean(st0: State, trace: seq<Event>, b: int, m: int)
    requires Initial(st0) && st0.lost == {} && Legal(st0, trace) && AllAnswered(trace)
    requires forall s | s in Run(st0, trace).sessions :: Run(st0, trace).sessions[s].phase.Done?
    ensures (b, m) !in Run(st0, trace).hub && !IsOnline(Run(st0, trace).rows, m)
  {
    RunKeepsInv(st0, trace);
    QuiescentState(st0, trace, b, m);
    AnsweredRunsLoseNothing(st0, trace);
  }

  // ---------------------------------------------------------------------------------------------
  // One broker
  // ---------------------------------------------------------------------------------------------

  /** Only broker b accepts sessions. */
  predicate OnlyOn(trace: seq<Event>, b: int) {
    forall i | 0 <= i < |trace| :: trace[i].Find? ==> trace[i].broker == b
  }

  /**
   On a single broker every session that is up has its row online under that broker, unless the row
   is inactive.
   */
  ghost predicate Single(st: State, b: int) {
    && (forall s | s in st.sessions :: SingleRow(st, s, b))
    && (forall s, m | UpFor(st, s, m) :: m in st.rows && (st.rows[m] == Row(Online, b) || st.rows[m].status.Inactive?))
  }

  ghost predicate SingleRow(st: State, s: nat, b: int)
    requires s in st.sessions
  {
    var m := st.sessions[s].minion;
    st.sessions[s].broker == b && (IsOnline(st.rows, m) ==> st.rows[m].broker == b)
  }

  lemma StepKeepsSingleRows(st: State, e: Event, b: int)
    requires Inv(st) && Single(st, b) && Enabled(st, e) && (e.Find? ==> e.broker == b)
    ensures var st' := Apply(st, e); forall s | s in st'.sessions :: SingleRow(st', s, b)
  {
    var st' := Apply(st, e);
    forall s | s in st'.sessions ensures SingleRow(st', s, b) {
      if s in st.sessions {
        assert SingleRow(st, s, b);
      }
      if !e.Find? && !e.Restart? {
        assert SingleRow(st, e.s, b);
      }
    }
  }

  lemma StepKeepsSingle(st: State, e: Event, b: int)
    requires Inv(st) && Single(st, b) && Enabled(st, e) && (e.Find? ==> e.broker == b)
    ensures Single(Apply(st, e), b)
  {
    StepKeepsSingleRows(st, e, b);
    var st' := Apply(st, e);
    forall s, m | UpFor(st', s, m)
      ensures m in st'.rows && (st'.rows[m] == Row(Online, b) || st'.rows[m].status.Inactive?)
    {
      assert SingleRow(st, s, b) && SingleRow(st', s, b);
      if !(e.Update? && e.s == s) {
        assert UpFor(st, s, m);
        if e.GoOffline? && e.s != s {
          assert SingleRow(st, e.s, b);
          KeysDiffer(st, e.s, s);
        }
      }
    }
  }

  lemma {:induction false} RunKeepsSingle(st: State, trace: seq<Event>, b: int)
    requires Inv(st) && Single(st, b) && Legal(st, trace) && OnlyOn(trace, b)
    ensures Inv(Run(st, trace)) && Single(Run(st, trace), b)
    decreases |trace|
  {
    if trace != [] {
      StepKeepsInv(st, trace[0]);
      StepKeepsSingle(st, trace[0], b);
      assert OnlyOn(trace[1..], b);
      RunKeepsSingle(Apply(st, trace[0]), trace[1..], b);
    }
  }

  /**
   On a single broker a successful Put means that the online update changes its row if and only if the
   row is neither inactive nor left over from a lost update: this is when it is sound not to check the
   number of affected rows.
   */
  lemma SingleBrokerHitsIff(st0: State, trace: seq<Event>, b: int, s: nat)
    requires Initial(st0) && Legal(st0, trace) && OnlyOn(trace, b) && In(Run(st0, trace), s, Held)
    ensures var st := Run(st0, trace); var m := st.sessions[s].minion;
      Hits(st, s) <==> !InactiveRow(st.rows, m) && m !in st.lost
  {
    OnlineUpdateHitsIff(st0, trace, s);
    RunKeepsSingle(st0, trace, b);
    var st := Run(st0, trace);
    assert forall t | t in st.sessions :: SingleRow(st, t, b);
  }

  /** On a single broker a serving session's row is online if and only if its row was not inactive at the start. */
  lemma ServingOnlineIff(st0: State, trace: seq<Event>, b: int, s: nat)
    requires Initial(st0) && Legal(st0, trace) && OnlyOn(trace, b) && In(Run(st0, trace), s, Serving)
    ensures var st := Run(st0, trace); var m := st.sessions[s].minion;
      m in st.rows && (st.rows[m] == Row(Online, b) <==> !InactiveRow(st0.rows, m))
  {
    RunKeepsSingle(st0, trace, b);
    var st := Run(st0, trace);
    assert UpFor(st, s, st.sessions[s].minion);
    InactiveStays(st0, trace, st.sessions[s].minion);
  }

  // ---------------------------------------------------------------------------------------------
  // A lost auth response
  // ---------------------------------------------------------------------------------------------

  predicate Restarted(trace: seq<Event>, b: int) {
    exists i | 0 <= i < |trace| :: trace[i].Restart? && trace[i].b == b
  }

  lemma AbandonedStep(st: State, e: Event, s: nat)
    requires Inv(st) && Enabled(st, e) && In(st, s, Abandoned)
    ensures var st' := Apply(st, e); var x := st.sessions[s];
      && s in st'.sessions
      && (!(e.Restart? && e.b == x.broker) ==> st'.sessions[s] == x)
      && (e.Restart? && e.b == x.broker ==> st'.sessions[s].phase.Done?)
  {
  }

  lemma {:induction false} DoneStays(st: State, trace: seq<Event>, s: nat)
    requires Legal(st, trace) && In(st, s, Done)
    ensures In(Run(st, trace), s, Done)
    decreases |trace|
  {
    if trace != [] {
      assert In(Apply(st, trace[0]), s, Done);
      DoneStays(Apply(st, trace[0]), trace[1..], s);
    }
  }

  /**
   A join whose response could not be written keeps its hub entry exactly until its broker restarts:
   nothing else ever releases it, and then the entry is gone or a later session's.
   */
  lemma {:induction false} AbandonedHoldsIff(st: State, trace: seq<Event>, s: nat)
    requires Inv(st) && Legal(st, trace) && In(st, s, Abandoned)
    ensures var st' := Run(st, trace); var x := st.sessions[s];
      && s in st'.sessions
      && (In(st', s, Abandoned) <==> !Restarted(trace, x.broker))
      && (!Restarted(trace, x.broker) ==>
            st'.sessions[s] == x && (x.broker, x.minion) in st'.hub && st'.hub[(x.broker, x.minion)] == s)
      && (Restarted(trace, x.broker) ==>
            !((x.broker, x.minion) in st'.hub && st'.hub[(x.broker, x.minion)] == s))
    decreases |trace|
  {
    var b := st.sessions[s].broker;
    if trace != [] {
      var e, st1 := trace[0], Apply(st, trace[0]);
      StepKeepsInv(st, e);
      AbandonedStep(st, e, s);
      RestartedTail(trace, b);
      if e.Restart? && e.b == b {
        DoneStays(st1, trace[1..], s);
        RunKeepsInv(st1, trace[1..]);
      } else {
        AbandonedHoldsIff(st1, trace[1..], s);
      }
    } else {
      assert st.hub[Key(st, s)] == s;
    }
  }

  lemma AbandonedStepAdmitsNone(st: State, e: Event, s: nat, t: nat)
    requires Inv(st) && Enabled(st, e) && In(st, s, Abandoned) && st.sessions[s].hit
    requires t in Apply(st, e).sessions && Apply(st, e).sessions[t].minion == st.sessions[s].minion
    ensures t in st.sessions
  {
    assert Owner(st, s, st.sessions[s].minion);
  }

  lemma RestartedTail(trace: seq<Event>, b: int)
    requires trace != []
    ensures Restarted(trace, b) <==> (trace[0].Restart? && trace[0].b == b) || Restarted(trace[1..], b)
  {
    if Restarted(trace[1..], b) {
      var i :| 0 <= i < |trace[1..]| && trace[1..][i].Restart? && trace[1..][i].b == b;
      assert trace[i + 1] == trace[1..][i];
    }
  }

  lemma {:induction false} MinionKept(st: State, trace: seq<Event>, t: nat)
    requires Legal(st, trace) && t in st.sessions
    ensures t in Run(st, trace).sessions && Run(st, trace).sessions[t].minion == st.sessions[t].minion
    decreases |trace|
  {
    if trace != [] {
      MinionKept(Apply(st, trace[0]), trace[1..], t);
    }
  }

  /** While an owner is abandoned no new session of its minion passes the status check on any broker. */
  lemma {:induction false} AbandonedAdmitsNone(st: State, trace: seq<Event>, s: nat)
    requires Inv(st) && Legal(st, trace) && In(st, s, Abandoned) && st.sessions[s].hit
    requires !Restarted(trace, st.sessions[s].broker)
    ensures var m := st.sessions[s].minion; var st' := Run(st, trace);
      && m in st'.rows && st'.rows[m] == Row(Online, st.sessions[s].broker)
      && (forall t | t in st'.sessions && st'.sessions[t].minion == m :: t in st.sessions)
    decreases |trace|
  {
    if trace == [] {
      assert Owner(st, s, st.sessions[s].minion);
    } else {
      var e, st1 := trace[0], Apply(st, trace[0]);
      StepKeepsInv(st, e);
      AbandonedStep(st, e, s);
      RestartedTail(trace, st.sessions[s].broker);
      AbandonedAdmitsNone(st1, trace[1..], s);
      forall t | t in st1.sessions && st1.sessions[t].minion == st.sessions[s].minion ensures t in st.sessions {
        AbandonedStepAdmitsNone(st, e, s, t);
      }
      forall t | t in Run(st1, trace[1..]).sessions && Run(st1, trace[1..]).sessions[t].minion == st.sessions[s].minion
        ensures t in st.sessions
      {
        MinionKept(st1, trace[1..], t);
      }
    }
  }

  /**
   So it locks its minion out: until its broker restarts no other session of the minion is served on
   that broker, and on no broker if none of them was under way before.
   */
  lemma AbandonedLocksOut(st: State, trace: seq<Event>, s: nat, t: nat)
    requires Inv(st) && Legal(st, trace) && In(st, s, Abandoned)
    requires !Restarted(trace, st.sessions[s].broker)
    requires t in Run(st, trace).sessions && Run(st, trace).sessions[t].minion == st.sessions[s].minion
    ensures Run(st, trace).sessions[t].broker == st.sessions[s].broker ==> !Run(st, trace).sessions[t].phase.Serving?
    ensures st.sessions[s].hit ==> t in st.sessions
  {
    RunKeepsInv(st, trace);
    AbandonedHoldsIff(st, trace, s);
    if st.sessions[s].hit {
      AbandonedAdmitsNone(st, trace, s);
    }
  }

  lemma OneStep(st: State, e: Event, rest: seq<Event>)
    requires Enabled(st, e) && Legal(Apply(st, e), rest)
    ensures Legal(st, [e] + rest) && Run(st, [e] + rest) == Run(Apply(st, e), rest)
  {
    assert ([e] + rest)[1..] == rest;
  }

  lemma TwoSteps(st: State, e: Event, e': Event, rest: seq<Event>)
    requires Enabled(st, e) && Enabled(Apply(st, e), e') && Legal(Apply(Apply(st, e), e'), rest)
    ensures Legal(st, [e, e'] + rest) && Run(st, [e, e'] + rest) == Run(Apply(Apply(st, e), e'), rest)
  {
    OneStep(Apply(st, e), e', rest);
    OneStep(st, e, [e'] + rest);
    assert [e] + ([e'] + rest) == [e, e'] + rest;
  }

  /** A session of agent 7 on broker 1, alone. */
  function Alone(row: Row, hub: map<(int, int), nat>, p: Phase, hit: bool): State {
    State(map[7 := row], hub, map[0 := Session(1, 7, p, hit)], {})
  }

  function Entered(): map<(int, int), nat> {
    map[(1, 7) := 0]
  }

  /** The row once the online update has answered. */
  function Claimed(row: Row): Row {
    if row.status.Offline? then Row(Online, 1) else row
  }

  lemma AloneJoins(row: Row, rest: seq<Event>)
    requires row.status.Offline? || row.status.Inactive?
    requires Legal(Alone(Claimed(row), Entered(), Joined, row.status.Offline?), rest)
    ensures var st, trace := Alone(row, map[], Found, false), [Put(0), Update(0, Answered)] + rest;
      Legal(st, trace) && Run(st, trace) == Run(Alone(Claimed(row), Entered(), Joined, row.status.Offline?), rest)
  {
    var held := Alone(row, Entered(), Held, false);
    var joined := Apply(held, Update(0, Answered));
    assert joined.rows == map[7 := Claimed(row)];
    assert joined == Alone(Claimed(row), Entered(), Joined, row.status.Offline?);
    assert Apply(Alone(row, map[], Found, false), Put(0)) == held;
    TwoSteps(Alone(row, map[], Found, false), Put(0), Update(0, Answered), rest);
  }

  function LostResponseTrace(): seq<Event> {
    [Find(0, 1, 7, Looked(Answered))] + ([Put(0), Update(0, Answered)] + [Respond(0, false)])
  }

  lemma LostResponseRun()
    ensures var st0 := State(map[], map[], map[], {});
      && Initial(st0) && Legal(st0, LostResponseTrace())
      && Run(st0, LostResponseTrace()) == Alone(Row(Online, 1), Entered(), Abandoned, true)
  {
    var st0, e0, tail := State(map[], map[], map[], {}), Find(0, 1, 7, Looked(Answered)), [Respond(0, false)];
    assert tail[1..] == [];
    AloneJoins(Row(Offline, 0), tail);
    assert Apply(st0, e0) == Alone(Row(Offline, 0), map[], Found, false);
    OneStep(st0, e0, [Put(0), Update(0, Answered)] + tail);
  }

  /**
   A concrete run to that point: a new agent joins, its response is lost, and however the run goes on
   without a restart, agent 7 gets no session any more.
   */
  lemma LostResponseLocksOut(trace: seq<Event>, t: nat)
    requires Legal(Alone(Row(Online, 1), Entered(), Abandoned, true), trace) && !Restarted(trace, 1)
    ensures var st0 := State(map[], map[], map[], {});
      && Initial(st0) && Legal(st0, LostResponseTrace())
      && Run(st0, LostResponseTrace()) == Alone(Row(Online, 1), Entered(), Abandoned, true)
    ensures var st := Run(Alone(Row(Online, 1), Entered(), Abandoned, true), trace);
      && IsOnline(st.rows, 7) && (1, 7) in st.hub
      && (t in st.sessions && st.sessions[t].minion == 7 ==> t == 0 && st.sessions[t].phase.Abandoned?)
  {
    LostResponseRun();
    var lost := Alone(Row(Online, 1), Entered(), Abandoned, true);
    RunKeepsInv(State(map[], map[], map[], {}), LostResponseTrace());
    AbandonedHoldsIff(lost, trace, 0);
    AbandonedAdmitsNone(lost, trace, 0);
  }

  // ---------------------------------------------------------------------------------------------
  // What ignoring the row count admits
  // ---------------------------------------------------------------------------------------------

  function InactiveTrace(): seq<Event> {
    [Find(0, 1, 7, Looked(Answered))] + ([Put(0), Update(0, Answered)] + [Respond(0, true)])
  }

  /** An inactive agent passes the status check, misses the online update, and is served all the same. */
  lemma InactiveAgentIsServed()
    ensures var st0 := State(map[7 := Row(Inactive, 0)], map[], map[], {});
      && Initial(st0) && Legal(st0, InactiveTrace()) && AllAnswered(InactiveTrace())
      && var st := Run(st0, InactiveTrace());
         In(st, 0, Serving) && st.sessions[0].minion == 7 && !IsOnline(st.rows, 7)
  {
    var st0, e0, tail := State(map[7 := Row(Inactive, 0)], map[], map[], {}), Find(0, 1, 7, Looked(Answered)), [Respond(0, true)];
    assert tail[1..] == [];
    AloneJoins(Row(Inactive, 0), tail);
    assert Apply(st0, e0) == Alone(Row(Inactive, 0), map[], Found, false);
    OneStep(st0, e0, [Put(0), Update(0, Answered)] + tail);
  }

  /** Sessions 0 and 1 of agent 7, on brokers 1 and 2. */
  function Pair(rows: map<int, Row>, hub: map<(int, int), nat>, p: Phase, hit: bool, q: Phase): State {
    State(rows, hub, map[0 := Session(1, 7, p, hit)][1 := Session(2, 7, q, false)], {})
  }

  function BothEntries(): map<(int, int), nat> {
    map[(1, 7) := 0][(2, 7) := 1]
  }

  /** Both brokers check the status of the offline agent before either brings it online. */
  lemma BothFind(rows: map<int, Row>, rest: seq<Event>)
    requires rows == map[7 := Row(Offline, 0)] && Legal(Pair(rows, map[], Found, false, Found), rest)
    ensures var st, trace := State(rows, map[], map[], {}),
          [Find(0, 1, 7, Looked(Answered)), Find(1, 2, 7, Looked(Answered))] + rest;
      Legal(st, trace) && Run(st, trace) == Run(Pair(rows, map[], Found, false, Found), rest)
  {
    var st, e0, e1 := State(rows, map[], map[], {}), Find(0, 1, 7, Looked(Answered)), Find(1, 2, 7, Looked(Answered));
    assert Apply(Apply(st, e0), e1) == Pair(rows, map[], Found, false, Found);
    TwoSteps(st, e0, e1, rest);
  }

  lemma BothPut(rows: map<int, Row>, rest: seq<Event>)
    requires Legal(Pair(rows, BothEntries(), Held, false, Held), rest)
    ensures var st, trace := Pair(rows, map[], Found, false, Found), [Put(0), Put(1)] + rest;
      Legal(st, trace) && Run(st, trace) == Run(Pair(rows, BothEntries(), Held, false, Held), rest)
  {
    assert Apply(Pair(rows, map[], Found, false, Found), Put(0)) == Pair(rows, Entered(), Held, false, Found);
    assert Apply(Pair(rows, Entered(), Held, false, Found), Put(1)) == Pair(rows, BothEntries(), Held, false, Held);
    TwoSteps(Pair(rows, map[], Found, false, Found), Put(0), Put(1), rest);
  }

  lemma BothUpdate(rows: map<int, Row>, hub: map<(int, int), nat>, rest: seq<Event>)
    requires rows == map[7 := Row(Offline, 0)] && Legal(Pair(rows[7 := Row(Online, 1)], hub, Joined, true, Joined), rest)
    ensures var st, trace := Pair(rows, hub, Held, false, Held), [Update(0, Answered), Update(1, Answered)] + rest;
      Legal(st, trace) && Run(st, trace) == Run(Pair(rows[7 := Row(Online, 1)], hub, Joined, true, Joined), rest)
  {
    var st, e0, e1 := Pair(rows, hub, Held, false, Held), Update(0, Answered), Update(1, Answered);
    assert Apply(st, e0) == Pair(rows[7 := Row(Online, 1)], hub, Joined, true, Held);
    assert Apply(Apply(st, e0), e1) == Pair(rows[7 := Row(Online, 1)], hub, Joined, true, Joined);
    TwoSteps(st, e0, e1, rest);
  }

  lemma BothRespond(rows: map<int, Row>, hub: map<(int, int), nat>)
    ensures var st, trace := Pair(rows, hub, Joined, true, Joined), [Respond(0, true), Respond(1, true)];
      Legal(st, trace) && Run(st, trace) == Pair(rows, hub, Serving, true, Serving)
  {
    var st := Pair(rows, hub, Joined, true, Joined);
    assert [Respond(0, true), Respond(1, true)][1..] == [Respond(1, true)] && [Respond(1, true)][1..] == [];
    assert Apply(st, Respond(0, true)) == Pair(rows, hub, Serving, true, Joined);
  }

  function TwoBrokersTrace(): seq<Event> {
    [Find(0, 1, 7, Looked(Answered)), Find(1, 2, 7, Looked(Answered))]
    + ([Put(0), Put(1)] + ([Update(0, Answered), Update(1, Answered)] + [Respond(0, true), Respond(1, true)]))
  }

  lemma TwoBrokersAnswered()
    ensures AllAnswered(TwoBrokersTrace())
  {
    assert TwoBrokersTrace() == [
      Find(0, 1, 7, Looked(Answered)), Find(1, 2, 7, Looked(Answered)), Put(0), Put(1),
      Update(0, Answered), Update(1, Answered), Respond(0, true), Respond(1, true) ];
  }

  lemma TwoBrokersRun()
    ensures var st0 := State(map[7 := Row(Offline, 0)], map[], map[], {});
      && Legal(st0, TwoBrokersTrace())
      && Run(st0, TwoBrokersTrace()) == Pair(map[7 := Row(Online, 1)], BothEntries(), Serving, true, Serving)
  {
    var rows := map[7 := Row(Offline, 0)];
    var responding := [Respond(0, true), Respond(1, true)];
    var updating := [Update(0, Answered), Update(1, Answered)] + responding;
    assert rows[7 := Row(Online, 1)] == map[7 := Row(Online, 1)];
    BothRespond(rows[7 := Row(Online, 1)], BothEntries());
    BothUpdate(rows, BothEntries(), responding);
    BothPut(rows, updating);
    BothFind(rows, [Put(0), Put(1)] + updating);
  }

  /** Two brokers then serve the agent at once, although every update answered. */
  lemma TwoBrokersServeOneAgent()
    ensures var st0 := State(map[7 := Row(Offline, 0)], map[], map[], {});
      && Initial(st0) && Legal(st0, TwoBrokersTrace()) && AllAnswered(TwoBrokersTrace())
      && var st := Run(st0, TwoBrokersTrace());
         && In(st, 0, Serving) && In(st, 1, Serving)
         && st.sessions[0].broker != st.sessions[1].broker && st.sessions[0].minion == st.sessions[1].minion
  {
    TwoBrokersRun();
    TwoBrokersAnswered();
  }

  /** Sessions 0 and 1 as before, and session 2 on broker 3. */
  function Three(row: Row, hub: map<(int, int), nat>, p: Phase, r: Phase, hit: bool): State {
    State(map[7 := row], hub,
          map[0 := Session(1, 7, p, true)][1 := Session(2, 7, Serving, false)][2 := Session(3, 7, r, hit)], {})
  }

  /** The owner of the row disconnects; the session that missed it keeps running. */
  lemma OwnerLeaves(rest: seq<Event>)
    requires Legal(Pair(map[7 := Row(Offline, 1)], BothEntries(), Offlined, true, Serving), rest)
    ensures var st, trace := Pair(map[7 := Row(Online, 1)], BothEntries(), Serving, true, Serving),
          [ServeEnd(0), GoOffline(0, Answered)] + rest;
      Legal(st, trace) && Run(st, trace) == Run(Pair(map[7 := Row(Offline, 1)], BothEntries(), Offlined, true, Serving), rest)
  {
    var online, offline := map[7 := Row(Online, 1)], map[7 := Row(Offline, 1)];
    var st, stopped := Pair(online, BothEntries(), Serving, true, Serving), Pair(online, BothEntries(), Stopped, true, Serving);
    assert Apply(st, ServeEnd(0)) == stopped;
    assert Apply(stopped, GoOffline(0, Answered)).rows == offline;
    assert Apply(stopped, GoOffline(0, Answered)) == Pair(offline, BothEntries(), Offlined, true, Serving);
    TwoSteps(st, ServeEnd(0), GoOffline(0, Answered), rest);
  }

  /** Broker 3 finds the agent offline. */
  lemma ThirdFound(rest: seq<Event>)
    requires Legal(Three(Row(Offline, 1), map[(2, 7) := 1], Done, Found, false), rest)
    ensures var st, trace := Pair(map[7 := Row(Offline, 1)], BothEntries(), Offlined, true, Serving),
          [DelByID(0), Find(2, 3, 7, Looked(Answered))] + rest;
      Legal(st, trace) && Run(st, trace) == Run(Three(Row(Offline, 1), map[(2, 7) := 1], Done, Found, false), rest)
  {
    var rows, e := map[7 := Row(Offline, 1)], Find(2, 3, 7, Looked(Answered));
    var st, left := Pair(rows, BothEntries(), Offlined, true, Serving), Pair(rows, map[(2, 7) := 1], Done, true, Serving);
    assert Apply(st, DelByID(0)).hub == left.hub;
    assert Apply(st, DelByID(0)) == left;
    assert Apply(left, e) == Three(Row(Offline, 1), map[(2, 7) := 1], Done, Found, false);
    TwoSteps(st, DelByID(0), e, rest);
  }

  lemma ThirdJoins()
    ensures var st, trace := Three(Row(Offline, 1), map[(2, 7) := 1], Done, Found, false), [Put(2), Update(2, Answered)];
      Legal(st, trace) && Run(st, trace) == Three(Row(Online, 3), map[(2, 7) := 1][(3, 7) := 2], Done, Joined, true)
  {
    var hub: map<(int, int), nat> := map[(2, 7) := 1];
    var st, held := Three(Row(Offline, 1), hub, Done, Found, false), Three(Row(Offline, 1), hub[(3, 7) := 2], Done, Held, false);
    assert Apply(st, Put(2)) == held;
    assert Apply(held, Update(2, Answered)).rows == map[7 := Row(Online, 3)];
    assert Apply(held, Update(2, Answered)) == Three(Row(Online, 3), hub[(3, 7) := 2], Done, Joined, true);
    TwoSteps(st, Put(2), Update(2, Answered), []);
    assert [Put(2), Update(2, Answered)] + [] == [Put(2), Update(2, Answered)];
  }

  function LaterHitTrace(): seq<Event> {
    [ServeEnd(0), GoOffline(0, Answered)]
    + ([DelByID(0), Find(2, 3, 7, Looked(Answered))] + [Put(2), Update(2, Answered)])
  }

  /**
   After such a run an update that does change the row does not mend it: session 2 comes online on
   broker 3 beside session 1, which broker 2 still serves.
   */
  lemma LaterHitServesTwice()
    ensures var st0 := State(map[7 := Row(Offline, 0)], map[], map[], {});
      var two := Pair(map[7 := Row(Online, 1)], BothEntries(), Serving, true, Serving);
      && Legal(st0, TwoBrokersTrace()) && Run(st0, TwoBrokersTrace()) == two
      && Legal(two, LaterHitTrace())
      && var st := Run(two, LaterHitTrace());
         UpFor(st, 1, 7) && In(st, 1, Serving) && UpFor(st, 2, 7) && st.sessions[2].hit
  {
    TwoBrokersRun();
    ThirdJoins();
    ThirdFound([Put(2), Update(2, Answered)]);
    OwnerLeaves([DelByID(0), Find(2, 3, 7, Looked(Answered))] + [Put(2), Update(2, Answered)]);
  }

  // ---------------------------------------------------------------------------------------------
  // What each step does, written out
  // ---------------------------------------------------------------------------------------------

  /** findOrCreate and the status switch: only a row that is or is made offline, or an inactive one, goes on. */
  lemma FindEffect(st: State, s: nat, b: int, m: int, db: Lookup)
    requires s !in st.sessions
    ensures var st' := Apply(st, Find(s, b, m, db));
      && st'.hub == st.hub && st'.lost == st.lost
      && st'.rows == (if m !in st.rows && (db == Looked(Answered) || db == Looked(Failed(true)))
                      then st.rows[m := Row(Offline, 0)] else st.rows)
      && var passes := db.Looked? && if m in st.rows then st.rows[m].status == Offline || st.rows[m].status == Inactive
                                     else db.create == Answered;
         st'.sessions == if passes then st.sessions[s := Session(b, m, Found, false)] else st.sessions
  {
  }

  /** In every phase exactly the session's next step can be taken, whatever the others do; an abandoned one has none. */
  lemma NextStep(st: State, s: nat, b: int, m: int, db: Lookup, reply: Reply, ok: bool)
    ensures Enabled(st, Find(s, b, m, db)) <==> s !in st.sessions
    ensures Enabled(st, Put(s)) <==> s in st.sessions && st.sessions[s].phase == Found
    ensures Enabled(st, Update(s, reply)) <==> s in st.sessions && st.sessions[s].phase == Held
    ensures Enabled(st, Respond(s, ok)) <==> s in st.sessions && st.sessions[s].phase == Joined
    ensures Enabled(st, ServeEnd(s)) <==> s in st.sessions && st.sessions[s].phase == Serving
    ensures Enabled(st, GoOffline(s, reply)) <==> s in st.sessions && st.sessions[s].phase == Stopped
    ensures Enabled(st, DelByID(s)) <==>
      s in st.sessions && (st.sessions[s].phase == Undoing || st.sessions[s].phase == Offlined)
    ensures Enabled(st, Restart(b, reply))
  {
  }

  lemma PutEffect(st: State, s: nat)
    requires Enabled(st, Put(s))
    ensures var st', x := Apply(st, Put(s)), st.sessions[s];
      && st'.rows == st.rows && st'.lost == st.lost
      && if (x.broker, x.minion) in st.hub then
           st'.hub == st.hub && st'.sessions == st.sessions[s := Session(x.broker, x.minion, Done, x.hit)]
         else
           st'.hub == st.hub[(x.broker, x.minion) := s]
           && st'.sessions == st.sessions[s := Session(x.broker, x.minion, Held, x.hit)]
  {
  }

  /** The online update touches an offline row and no other; whether it did makes no difference to the session. */
  lemma UpdateEffect(st: State, s: nat, reply: Reply)
    requires Enabled(st, Update(s, reply))
    ensures var st', x := Apply(st, Update(s, reply)), st.sessions[s];
      var offline := x.minion in st.rows && st.rows[x.minion].status == Offline;
      && st'.hub == st.hub
      && st'.rows == (if offline && reply != Failed(false) then st.rows[x.minion := Row(Online, x.broker)] else st.rows)
      && var p := if reply == Answered then Joined else Undoing;
         st'.sessions == st.sessions[s := Session(x.broker, x.minion, p, offline && reply == Answered)]
  {
  }

  /** The offline update touches the row only if it is online under the session's own broker. */
  lemma GoOfflineEffect(st: State, s: nat, reply: Reply)
    requires Enabled(st, GoOffline(s, reply))
    ensures var st', x := Apply(st, GoOffline(s, reply)), st.sessions[s];
      var own := x.minion in st.rows && st.rows[x.minion] == Row(Online, x.broker);
      && st'.hub == st.hub
      && st'.rows == (if own && reply != Failed(false) then st.rows[x.minion := Row(Offline, x.broker)] else st.rows)
      && st'.sessions == st.sessions[s := Session(x.broker, x.minion, Offlined, x.hit)]
  {
  }

  lemma DelByIDEffect(st: State, s: nat)
    requires Enabled(st, DelByID(s))
    ensures var st', x := Apply(st, DelByID(s)), st.sessions[s];
      && st'.rows == st.rows && st'.lost == st.lost
      && (x.broker, x.minion) !in st'.hub
      && (forall k | k != (x.broker, x.minion) :: (k in st'.hub <==> k in st.hub) && (k in st.hub ==> st'.hub[k] == st.hub[k]))
      && st'.sessions == st.sessions[s := Session(x.broker, x.minion, Done, x.hit)]
  {
  }

  lemma RespondEffect(st: State, s: nat, ok: bool)
    requires Enabled(st, Respond(s, ok))
    ensures var st', x := Apply(st, Respond(s, ok)), st.sessions[s];
      && st'.rows == st.rows && st'.lost == st.lost && st'.hub == st.hub
      && st'.sessions == st.sessions[s := Session(x.broker, x.minion, if ok then Serving else Abandoned, x.hit)]
  {
  }

  lemma ServeEndEffect(st: State, s: nat)
    requires Enabled(st, ServeEnd(s))
    ensures var st', x := Apply(st, ServeEnd(s)), st.sessions[s];
      && st'.rows == st.rows && st'.lost == st.lost && st'.hub == st.hub
      && st'.sessions == st.sessions[s := Session(x.broker, x.minion, Stopped, x.hit)]
  {
  }

  /** A restart ends the broker's sessions, empties its hub, sets exactly its online rows offline, and touches nothing else. */
  lemma RestartEffect(st: State, b: int, reply: Reply)
    ensures var st' := Apply(st, Restart(b, reply));
      && st'.rows.Keys == st.rows.Keys && st'.sessions.Keys == st.sessions.Keys
      && (forall m | m in st.rows ::
            st'.rows[m] == if st.rows[m] == Row(Online, b) && reply != Failed(false) then Row(Offline, b) else st.rows[m])
      && (forall k :: k in st'.hub <==> k in st.hub && k.0 != b)
      && (forall k | k in st'.hub :: st'.hub[k] == st.hub[k])
      && (forall s | s in st.sessions ::
            var x := st.sessions[s];
            st'.sessions[s] == if x.broker == b then Session(b, x.minion, Done, x.hit) else x)
  {
  }

  /** A row that is neither offline nor online. */
  predicate Frozen(rows: map<int, Row>, m: int) {
    m in rows && (rows[m].status == Inactive || rows[m].status == Deleted || rows[m].status == Abnormal)
  }

  /** No step of any run changes an inactive, deleted or abnormal row, or makes one. */
  lemma {:induction false} FrozenStays(st: State, trace: seq<Event>, m: int)
    requires Legal(st, trace)
    ensures Frozen(Run(st, trace).rows, m) <==> Frozen(st.rows, m)
    ensures Frozen(st.rows, m) ==> Run(st, trace).rows[m] == st.rows[m]
    decreases |trace|
  {
    if trace != [] {
      var st1 := Apply(st, trace[0]);
      assert Frozen(st1.rows, m) <==> Frozen(st.rows, m);
      FrozenStays(st1, trace[1..], m);
    }
  }

  // ---------------------------------------------------------------------------------------------
  // The operations as they update the shared state in place
  // ---------------------------------------------------------------------------------------------

  datatype JoinCode = OK | Conflict | Forbidden | InternalServerError

  /** The status switch turns the row down. */
  predicate Forbids(rows: map<int, Row>, m: int) {
    m in rows && (rows[m].status.Deleted? || rows[m].status.Abnormal?)
  }

  class Servers {
    var rows: map<int, Row>
    var hub: map<(int, int), nat>
    var sessions: map<nat, Session>
    ghost var lost: set<int>

    ghost function View(): State
      reads this
    {
      State(rows, hub, sessions, lost)
    }

    constructor (rows: map<int, Row>)
      ensures Initial(View()) && this.rows == rows
    {
      this.rows, hub, sessions := rows, map[], map[];
      lost := set m | m in rows && rows[m].status.Online?;
    }

    method Find(s: nat, b: int, m: int, db: Lookup) returns (code: JoinCode)
      requires s !in sessions
      modifies this
      ensures View() == Apply(old(View()), Event.Find(s, b, m, db))
      ensures code == InternalServerError <==> db == LookupFails || (m !in old(rows) && db.create.Failed?)
      ensures code == Conflict <==> db != LookupFails && m in old(rows) && old(rows)[m].status == Online
      ensures code == Forbidden <==>
        db != LookupFails && m in old(rows) && (old(rows)[m].status == Deleted || old(rows)[m].status == Abnormal)
      ensures code == OK <==> s in sessions
    {
      if db.LookupFails? {
        return InternalServerError;
      }
      if m !in rows {
        if db.create != Failed(false) {
          rows := rows[m := Row(Offline, 0)];
        }
        if db.create.Failed? {
          return InternalServerError;
        }
      }
      match rows[m].status {
        case Online => return Conflict;
        case Deleted => return Forbidden;
        case Abnormal => return Forbidden;
        case _ =>
      }
      sessions := sessions[s := Session(b, m, Found, false)];
      code := OK;
    }

    method Put(s: nat) returns (ok: bool)
      requires Enabled(View(), Event.Put(s))
      modifies this
      ensures View() == Apply(old(View()), Event.Put(s))
      ensures ok <==> sessions[s].phase.Held?
    {
      var x := sessions[s];
      ok := (x.broker, x.minion) !in hub;
      if ok {
        hub := hub[(x.broker, x.minion) := s];
      }
      sessions := sessions[s := x.(phase := if ok then Held else Done)];
    }

    method Update(s: nat, reply: Reply) returns (ok: bool)
      requires Enabled(View(), Event.Update(s, reply))
      modifies this
      ensures View() == Apply(old(View()), Event.Update(s, reply))
      ensures ok <==> reply.Answered?
    {
      var x, affected := sessions[s], 0;
      ok := reply.Answered?;
      if x.minion in rows && rows[x.minion].status == Offline && reply != Failed(false) {
        rows := rows[x.minion := Row(Online, x.broker)];
        affected := 1;
        if !ok {
          lost := lost + {x.minion};
        }
      }
      sessions := sessions[s := x.(phase := if ok then Joined else Undoing, hit := ok && affected == 1)];
    }

    method Respond(s: nat, ok: bool)
      requires Enabled(View(), Event.Respond(s, ok))
      modifies this
      ensures View() == Apply(old(View()), Event.Respond(s, ok))
    {
      sessions := sessions[s := sessions[s].(phase := if ok then Serving else Abandoned)];
    }

    method ServeEnd(s: nat)
      requires Enabled(View(), Event.ServeEnd(s))
      modifies this
      ensures View() == Apply(old(View()), Event.ServeEnd(s))
    {
      sessions := sessions[s := sessions[s].(phase := Stopped)];
    }

    method GoOffline(s: nat, reply: Reply)
      requires Enabled(View(), Event.GoOffline(s, reply))
      modifies this
      ensures View() == Apply(old(View()), Event.GoOffline(s, reply))
    {
      var x := sessions[s];
      if x.minion in rows && rows[x.minion].status == Online && rows[x.minion].broker == x.broker {
        if reply != Failed(false) {
          rows := rows[x.minion := Row(Offline, x.broker)];
          lost := lost - {x.minion};
        } else {
          lost := lost + {x.minion};
        }
      }
      sessions := sessions[s := x.(phase := Offlined)];
    }

    method DelByID(s: nat)
      requires Enabled(View(), Event.DelByID(s))
      modifies this
      ensures View() == Apply(old(View()), Event.DelByID(s))
    {
      var x := sessions[s];
      hub := map k | k in hub && k != (x.broker, x.minion) :: hub[k];
      sessions := sessions[s := x.(phase := Done)];
    }

    method ResetAgents(b: int, reply: Reply)
      modifies this`rows, this`lost
      ensures rows == ResetRows(old(rows), b, reply) && lost == Unowned(rows, old(lost), b)
      ensures rows.Keys == old(rows).Keys && forall m | m in rows ::
        rows[m] == if old(rows)[m] == Row(Online, b) && reply != Failed(false) then Row(Offline, b) else old(rows)[m]
    {
      if reply != Failed(false) {
        rows := map m | m in rows ::
          if rows[m].broker == b && rows[m].status == Online then rows[m].(status := Offline) else rows[m];
      }
      lost := set m | m in rows && rows[m].status.Online? && (m in lost || rows[m].broker == b);
    }

    method Restart(b: int, reply: Reply)
      modifies this
      ensures View() == Apply(old(View()), Event.Restart(b, reply))
    {
      hub := Survivors(hub, b);
      sessions := Dropped(sessions, b);
      ResetAgents(b, reply);
    }

    /** join without interruption: which code it returns, and what it leaves behind. */
    method Join(s: nat, b: int, m: int, db: Lookup, reply: Reply) returns (code: JoinCode)
      requires s !in sessions
      modifies this
      ensures var free := Known(old(rows), m, db) && (m in old(rows) ==> Admits(old(rows), m));
        && (code == Forbidden <==> Known(old(rows), m, db) && Forbids(old(rows), m))
        && (code == Conflict <==>
              (Known(old(rows), m, db) && IsOnline(old(rows), m)) || (free && (b, m) in old(hub)))
        && (code == InternalServerError <==>
              !Known(old(rows), m, db) || (free && (b, m) !in old(hub) && reply.Failed?))
      ensures code == OK ==> In(View(), s, Joined) && (b, m) !in old(hub) && hub == old(hub)[(b, m) := s]
      ensures code != OK ==> hub == old(hub) && (s in sessions ==> sessions[s].phase.Done?)
      ensures forall k | k in old(rows) && k != m :: k in rows && rows[k] == old(rows)[k]
      ensures code == OK ==> m in rows && (rows[m] == Row(Online, b) || InactiveRow(old(rows), m))
    {
      code := Find(s, b, m, db);
      if code != OK {
        return;
      }
      var put := Put(s);
      if !put {
        return Conflict;
      }
      var ok := Update(s, reply);
      if !ok {
        DelByID(s);
        assert hub == old(hub);
        return InternalServerError;
      }
    }

    /** disconnect: the row goes offline first, then the hub entry goes. */
    method Disconnect(s: nat, reply: Reply)
      requires In(View(), s, Stopped)
      modifies this
      ensures In(View(), s, Done) && Key(View(), s) == Key(old(View()), s)
      ensures hub == old(hub) - {Key(View(), s)}
      ensures var x := sessions[s];
        if x.minion in old(rows) && old(rows)[x.minion] == Row(Online, x.broker) && reply != Failed(false)
        then rows == old(rows)[x.minion := Row(Offline, x.broker)] else rows == old(rows)
    {
      GoOffline(s, reply);
      DelByID(s);
    }
  }
}
