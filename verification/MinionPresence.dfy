/**
 The presence protocol of bridge/mlink/hub.go.

 Many brokers share one `minion` table. Each broker keeps an in-memory hub, keyed by minion id, and
 runs one `Join` per agent connection. The steps of different connections interleave freely; a step
 is one atomic access to a shared resource (a hub operation or one SQL statement).
 */
module MinionPresence {
  import opened MinionTable

  /** Where one connection stands in `Auth` and `Join`. The deferred calls run last-in first-out. */
  datatype Phase =
    | Authed   // Auth answered 202, Join has not touched the hub yet
    | Held     // section.Put succeeded, the online update is next
    | Serving  // the online update changed the row; srv.Serve is running
    | Stopped  // srv.Serve returned; the deferred offline update is next
    | Leaving  // the deferred section.Del is next
    | Closing  // the deferred mux.Close is next
    | Done

  datatype Session = Session(broker: int, minion: int, phase: Phase, muxOpen: bool)

  datatype Inet = NotIPv4 | IPv4(a: nat, b: nat, c: nat, d: nat)

  /** What the agent says of itself, as far as Auth looks at it. */
  datatype Ident = Ident(semver: string, machineID: string, inet: Inet)

  /**
   `hub` is keyed by (broker, minion) and names the session that put the entry. `lost` is a history
   variable: the minions whose row was left online by an update whose caller saw an error, or that
   were online before the run began.
   */
  datatype State = State(
    rows: map<int, Row>,
    hub: map<(int, int), nat>,
    sessions: map<nat, Session>,
    lost: set<int>
  )

  datatype Event =
    | Auth(s: nat, broker: int, minion: int, ident: Ident, create: Reply)
    | Abandon(s: nat)
    | Put(s: nat)
    | GoOnline(s: nat, reply: Reply)
    | ServeEnd(s: nat)
    | GoOffline(s: nat, reply: Reply)
    | Del(s: nat)
    | Close(s: nat)
    | Knockout(broker: int, minion: int)
    | Restart(broker: int, reply: Reply)

  predicate InWindow(p: Phase) {
    p.Held? || p.Serving? || p.Stopped? || p.Leaving?
  }

  /** An owner has brought its row online and has not yet tried to take it offline. */
  predicate Owns(p: Phase) {
    p.Serving? || p.Stopped?
  }

  function Moved(st: State, s: nat, p: Phase): map<nat, Session>
    requires s in st.sessions
  {
    st.sessions[s := st.sessions[s].(phase := p)]
  }

  predicate Enabled(st: State, e: Event) {
    match e
    case Auth(s, _, _, _, _) => s !in st.sessions
    case Abandon(s) => s in st.sessions && st.sessions[s].phase.Authed?
    case Put(s) => s in st.sessions && st.sessions[s].phase.Authed?
    case GoOnline(s, _) => s in st.sessions && st.sessions[s].phase.Held?
    case ServeEnd(s) => s in st.sessions && st.sessions[s].phase.Serving?
    case GoOffline(s, _) => s in st.sessions && st.sessions[s].phase.Stopped?
    case Del(s) => s in st.sessions && st.sessions[s].phase.Leaving?
    case Close(s) => s in st.sessions && st.sessions[s].phase.Closing?
    case Knockout(_, _) => true
    case Restart(_, _) => true
  }

  /** Agents of version 4 need a machine id, all need an IPv4 address that is neither loopback nor 0.0.0.0. */
  predicate Acceptable(ident: Ident) {
    && !("4." <= ident.semver && ident.machineID == "")
    && ident.inet.IPv4? && ident.inet.a != 127 && ident.inet != IPv4(0, 0, 0, 0)
  }

  /** Auth checks the identity, looks the row up or creates it, and refuses deleted and online rows. */
  function AuthStep(st: State, s: nat, b: int, m: int, ident: Ident, create: Reply): State {
    if !Acceptable(ident) then st
    else
      var rows := Created(st.rows, m, create);
      if !Finds(st.rows, m, create) || rows[m].status.Deleted? || rows[m].status.Online? then
        st.(rows := rows)
      else
        st.(rows := rows, sessions := st.sessions[s := Session(b, m, Authed, true)])
  }

  /** section.Put is put-if-absent; on failure Join returns ErrMinionOnline and only mux.Close is deferred. */
  function PutStep(st: State, s: nat): State
    requires s in st.sessions
  {
    var key := (st.sessions[s].broker, st.sessions[s].minion);
    if key in st.hub then
      st.(sessions := Moved(st, s, Closing))
    else
      st.(hub := st.hub[key := s], sessions := Moved(st, s, Held))
  }

  /** UPDATE minion SET status = online, broker_id = b WHERE id = m AND status = offline. */
  function GoOnlineStep(st: State, s: nat, reply: Reply): State
    requires s in st.sessions
  {
    var m := st.sessions[s].minion;
    var hit := m in st.rows && st.rows[m].status.Offline?;
    var rows := if hit then st.rows[m := Row(Online, st.sessions[s].broker)] else st.rows;
    match reply
    case Answered =>
      st.(rows := rows, sessions := Moved(st, s, if hit then Serving else Leaving))
    case Failed(applied) =>
      st.(rows := if applied then rows else st.rows,
          sessions := Moved(st, s, Leaving),
          lost := if applied && hit then st.lost + {m} else st.lost)
  }

  /** UPDATE minion SET status = offline WHERE broker_id = b AND status = online AND id = m. */
  function GoOfflineStep(st: State, s: nat, reply: Reply): State
    requires s in st.sessions
  {
    var m, b := st.sessions[s].minion, st.sessions[s].broker;
    var hit := m in st.rows && st.rows[m] == Row(Online, b);
    var rows := if hit && (reply.Answered? || reply.applied) then st.rows[m := Row(Offline, b)] else st.rows;
    st.(rows := rows,
        sessions := Moved(st, s, Leaving),
        lost := if IsOnline(rows, m) then st.lost + {m} else st.lost)
  }

  /** section.Del takes only the id: it removes whatever entry the id has now. */
  function DelStep(st: State, s: nat): State
    requires s in st.sessions
  {
    st.(hub := st.hub - {(st.sessions[s].broker, st.sessions[s].minion)},
        sessions := Moved(st, s, Closing))
  }

  function CloseStep(st: State, s: nat): State
    requires s in st.sessions
  {
    st.(sessions := st.sessions[s := st.sessions[s].(phase := Done, muxOpen := false)])
  }

  /** Knockout deletes the entry and closes the mux of the session that was in it; id 0 is ignored. */
  function KnockoutStep(st: State, b: int, m: int): State {
    if m == 0 || (b, m) !in st.hub then st
    else
      var v := st.hub[(b, m)];
      st.(hub := st.hub - {(b, m)},
          sessions := if v in st.sessions then st.sessions[v := st.sessions[v].(muxOpen := false)] else st.sessions)
  }

  function Dropped(sessions: map<nat, Session>, b: int): map<nat, Session> {
    map s | s in sessions ::
      if sessions[s].broker == b then sessions[s].(phase := Done, muxOpen := false) else sessions[s]
  }

  /** The broker process dies and starts again: its sessions and hub are gone, ResetDB runs. */
  function RestartStep(st: State, b: int, reply: Reply): State {
    var rows := ResetRows(st.rows, b, reply);
    State(rows, Survivors(st.hub, b), Dropped(st.sessions, b), Unowned(rows, st.lost, b))
  }

  function Apply(st: State, e: Event): State
    requires Enabled(st, e)
  {
    match e
    case Auth(s, b, m, ident, create) => AuthStep(st, s, b, m, ident, create)
    case Abandon(s) => CloseStep(st, s)
    case Put(s) => PutStep(st, s)
    case GoOnline(s, reply) => GoOnlineStep(st, s, reply)
    case ServeEnd(s) => st.(sessions := Moved(st, s, Stopped))
    case GoOffline(s, reply) => GoOfflineStep(st, s, reply)
    case Del(s) => DelStep(st, s)
    case Close(s) => CloseStep(st, s)
    case Knockout(b, m) => KnockoutStep(st, b, m)
    case Restart(b, reply) => RestartStep(st, b, reply)
  }

  predicate Legal(st: State, trace: seq<Event>)
    decreases |trace|
  {
    trace == [] || (Enabled(st, trace[0]) && Legal(Apply(st, trace[0]), trace[1..]))
  }

  function Run(st: State, trace: seq<Event>): State
    requires Legal(st, trace)
    decreases |trace|
  {
    if trace == [] then st else Run(Apply(st, trace[0]), trace[1..])
  }

  /** Any table content may be found at the start; rows already online belong to nobody. */
  ghost predicate Initial(st: State) {
    && st.hub == map[]
    && st.sessions == map[]
    && st.lost == set m | m in st.rows && st.rows[m].status.Online?
  }

  // ---------------------------------------------------------------------------------------------
  // The invariant
  // ---------------------------------------------------------------------------------------------

  /** Every hub entry belongs to a session of that key between its Put and its own Del, with an open mux. */
  ghost predicate EntriesAlive(st: State) {
    forall k | k in st.hub ::
      && st.hub[k] in st.sessions
      && var x := st.sessions[st.hub[k]];
         (x.broker, x.minion) == k && InWindow(x.phase) && x.muxOpen
  }

  ghost predicate OwnsMinion(st: State, s: nat, m: int) {
    s in st.sessions && st.sessions[s].minion == m && Owns(st.sessions[s].phase)
  }

  /** An owner's row is online under the owner's broker, and nobody else is responsible for it. */
  ghost predicate OwnersHold(st: State) {
    forall s, m | OwnsMinion(st, s, m) ::
      m in st.rows && st.rows[m] == Row(Online, st.sessions[s].broker) && m !in st.lost
  }

  ghost predicate OwnersUnique(st: State) {
    forall s, t, m | OwnsMinion(st, s, m) && OwnsMinion(st, t, m) :: s == t
  }

  /** A row is online only because some session owns it or because an update for it was lost. */
  ghost predicate OnlineExplained(st: State) {
    forall m | IsOnline(st.rows, m) :: m in st.lost || exists s :: OwnsMinion(st, s, m)
  }

  ghost predicate LostOnline(st: State) {
    forall m | m in st.lost :: IsOnline(st.rows, m)
  }

  ghost predicate NoneDeleted(st: State) {
    forall s | s in st.sessions ::
      st.sessions[s].minion in st.rows && !st.rows[st.sessions[s].minion].status.Deleted?
  }

  /** Nobody closes a mux before Put, and a finished session has closed its own. */
  ghost predicate MuxLife(st: State) {
    forall s | s in st.sessions ::
      && (st.sessions[s].phase.Authed? ==> st.sessions[s].muxOpen)
      && (st.sessions[s].phase.Done? ==> !st.sessions[s].muxOpen)
  }

  ghost predicate Inv(st: State) {
    && EntriesAlive(st) && OwnersHold(st) && OwnersUnique(st)
    && OnlineExplained(st) && LostOnline(st) && NoneDeleted(st) && MuxLife(st)
  }

  lemma MoveKeepsExplained(st: State, st': State)
    requires Inv(st)
    requires (forall m | IsOnline(st'.rows, m) :: IsOnline(st.rows, m)) && st'.lost == st.lost
    requires st.sessions.Keys <= st'.sessions.Keys
    requires forall t | t in st.sessions ::
      st'.sessions[t].minion == st.sessions[t].minion && Owns(st'.sessions[t].phase) == Owns(st.sessions[t].phase)
    ensures OnlineExplained(st')
  {
    forall m | IsOnline(st'.rows, m) && m !in st'.lost ensures exists t :: OwnsMinion(st', t, m) {
      var t :| OwnsMinion(st, t, m);
      assert OwnsMinion(st', t, m);
    }
  }

  /** Looking up or creating a row changes nothing else and brings nothing online. */
  lemma CreatedKeepsInv(st: State, m: int, create: Reply)
    requires Inv(st)
    ensures Inv(st.(rows := Created(st.rows, m, create)))
  {
    var st' := st.(rows := Created(st.rows, m, create));
    forall t, x | OwnsMinion(st', t, x) ensures OwnsMinion(st, t, x) {}
    MoveKeepsExplained(st, st');
  }

  lemma AdmitKeepsInv(st: State, s: nat, b: int, m: int)
    requires Inv(st) && s !in st.sessions && m in st.rows && !st.rows[m].status.Deleted?
    ensures Inv(st.(sessions := st.sessions[s := Session(b, m, Authed, true)]))
  {
    var st' := st.(sessions := st.sessions[s := Session(b, m, Authed, true)]);
    forall t, x | OwnsMinion(st', t, x) ensures OwnsMinion(st, t, x) {}
    MoveKeepsExplained(st, st');
  }

  lemma AuthKeepsInv(st: State, s: nat, b: int, m: int, ident: Ident, create: Reply)
    requires Inv(st) && s !in st.sessions
    ensures Inv(AuthStep(st, s, b, m, ident, create))
  {
    if Acceptable(ident) {
      CreatedKeepsInv(st, m, create);
      var st1 := st.(rows := Created(st.rows, m, create));
      if Finds(st.rows, m, create) && !st1.rows[m].status.Deleted? {
        AdmitKeepsInv(st1, s, b, m);
      }
    }
  }

  lemma PutKeepsInv(st: State, s: nat)
    requires Inv(st) && Enabled(st, Put(s))
    ensures Inv(PutStep(st, s))
  {
    var st' := PutStep(st, s);
    forall t, x | OwnsMinion(st', t, x) ensures OwnsMinion(st, t, x) {}
    MoveKeepsExplained(st, st');
  }

  lemma GoOnlineKeepsInv(st: State, s: nat, reply: Reply)
    requires Inv(st) && Enabled(st, GoOnline(s, reply))
    ensures Inv(GoOnlineStep(st, s, reply))
  {
    var st' := GoOnlineStep(st, s, reply);
    var m := st.sessions[s].minion;
    forall t, x | OwnsMinion(st', t, x) && t != s ensures OwnsMinion(st, t, x) {}
    assert forall t :: OwnsMinion(st', t, m) && t != s ==> st.rows[m].status.Online?;
    forall x | IsOnline(st'.rows, x) && x !in st'.lost ensures exists t :: OwnsMinion(st', t, x) {
      if x == m && st.rows[m].status.Offline? {
        assert OwnsMinion(st', s, x);
      } else {
        assert IsOnline(st.rows, x);
        var t :| OwnsMinion(st, t, x);
        assert OwnsMinion(st', t, x);
      }
    }
  }

  lemma ServeEndKeepsInv(st: State, s: nat)
    requires Inv(st) && Enabled(st, ServeEnd(s))
    ensures Inv(Apply(st, ServeEnd(s)))
  {
    var st' := Apply(st, ServeEnd(s));
    forall t, x | OwnsMinion(st', t, x) ensures OwnsMinion(st, t, x) {}
    MoveKeepsExplained(st, st');
  }

  lemma GoOfflineKeepsInv(st: State, s: nat, reply: Reply)
    requires Inv(st) && Enabled(st, GoOffline(s, reply))
    ensures Inv(GoOfflineStep(st, s, reply))
  {
    var st' := GoOfflineStep(st, s, reply);
    var m := st.sessions[s].minion;
    assert OwnsMinion(st, s, m);
    forall t, x | OwnsMinion(st', t, x) ensures OwnsMinion(st, t, x) && x != m {
      assert OwnsMinion(st, t, x);
      assert t != s;
    }
    forall x | IsOnline(st'.rows, x) && x !in st'.lost ensures exists t :: OwnsMinion(st', t, x) {
      assert IsOnline(st.rows, x);
      var t :| OwnsMinion(st, t, x);
      assert OwnsMinion(st', t, x);
    }
  }

  lemma LeaveKeepsInv(st: State, e: Event)
    requires Inv(st) && Enabled(st, e) && (e.Del? || e.Close? || e.Abandon?)
    ensures Inv(Apply(st, e))
  {
    var st' := Apply(st, e);
    forall t, x | OwnsMinion(st', t, x) ensures OwnsMinion(st, t, x) {}
    MoveKeepsExplained(st, st');
  }

  lemma KnockoutKeepsInv(st: State, b: int, m: int)
    requires Inv(st)
    ensures Inv(KnockoutStep(st, b, m))
  {
    var st' := KnockoutStep(st, b, m);
    if st' != st {
      forall t, x | OwnsMinion(st', t, x) ensures OwnsMinion(st, t, x) {}
      MoveKeepsExplained(st, st');
    }
  }

  lemma RestartKeepsInv(st: State, b: int, reply: Reply)
    requires Inv(st)
    ensures Inv(RestartStep(st, b, reply))
  {
    var st' := RestartStep(st, b, reply);
    forall t, x | OwnsMinion(st', t, x) ensures OwnsMinion(st, t, x) && st.sessions[t].broker != b {}
    forall x | IsOnline(st'.rows, x) && x !in st'.lost ensures exists t :: OwnsMinion(st', t, x) {
      assert IsOnline(st.rows, x);
      var t :| OwnsMinion(st, t, x);
      assert OwnsMinion(st', t, x);
    }
  }

  lemma StepKeepsInv(st: State, e: Event)
    requires Inv(st) && Enabled(st, e)
    ensures Inv(Apply(st, e))
  {
    match e
    case Auth(s, b, m, ident, create) => AuthKeepsInv(st, s, b, m, ident, create);
    case Put(s) => PutKeepsInv(st, s);
    case GoOnline(s, reply) => GoOnlineKeepsInv(st, s, reply);
    case ServeEnd(s) => ServeEndKeepsInv(st, s);
    case GoOffline(s, reply) => GoOfflineKeepsInv(st, s, reply);
    case Abandon(_) => LeaveKeepsInv(st, e);
    case Del(_) => LeaveKeepsInv(st, e);
    case Close(_) => LeaveKeepsInv(st, e);
    case Knockout(b, m) => KnockoutKeepsInv(st, b, m);
    case Restart(b, reply) => RestartKeepsInv(st, b, reply);
  }

  lemma {:induction false} RunKeepsInv(st: State, trace: seq<Event>)
    requires Inv(st) && Legal(st, trace)
    ensures Inv(Run(st, trace))
    decreases |trace|
  {
    if trace != [] {
      StepKeepsInv(st, trace[0]);
      RunKeepsInv(Apply(st, trace[0]), trace[1..]);
    }
  }

  // ---------------------------------------------------------------------------------------------
  // Safety over whole runs
  // ---------------------------------------------------------------------------------------------

  /**
   On every run of any number of brokers, Knockouts, restarts and failed writes included, one minion
   is served by at most one session, and that session's row is online under its own broker.
   */
  lemma AtMostOneServing(st0: State, trace: seq<Event>)
    requires Initial(st0) && Legal(st0, trace)
    ensures var st := Run(st0, trace);
      && (forall s, t | s in st.sessions && t in st.sessions && st.sessions[s].phase.Serving?
            && st.sessions[t].phase.Serving? && st.sessions[s].minion == st.sessions[t].minion :: s == t)
      && (forall s | s in st.sessions && st.sessions[s].phase.Serving? ::
            st.sessions[s].minion in st.rows
            && st.rows[st.sessions[s].minion] == Row(Online, st.sessions[s].broker))
  {
    RunKeepsInv(st0, trace);
    var st := Run(st0, trace);
    forall s | s in st.sessions && st.sessions[s].phase.Serving?
      ensures OwnsMinion(st, s, st.sessions[s].minion) {}
  }

  /** What dialContext would pick for minion m on broker b: the entry, whatever it is. */
  function Dial(st: State, b: int, m: int): (r: seq<nat>) {
    if (b, m) in st.hub then [st.hub[(b, m)]] else []
  }

  /** dialContext never picks a finished session, one of another minion or broker, or one whose mux the broker has closed. */
  lemma DialPicksLiveSession(st0: State, trace: seq<Event>, b: int, m: int)
    requires Initial(st0) && Legal(st0, trace)
    ensures var st := Run(st0, trace);
      forall s | s in Dial(st, b, m) ::
        && s in st.sessions
        && st.sessions[s].broker == b && st.sessions[s].minion == m
        && InWindow(st.sessions[s].phase) && st.sessions[s].muxOpen
  {
    RunKeepsInv(st0, trace);
  }

  /**
   When every session has finished, all hubs are empty and a row is online exactly when an update
   for it was lost; with every update answered, no row stays online.
   */
  lemma QuiescentState(st0: State, trace: seq<Event>)
    requires Initial(st0) && Legal(st0, trace)
    requires forall s | s in Run(st0, trace).sessions :: Run(st0, trace).sessions[s].phase.Done?
    ensures var st := Run(st0, trace);
      && st.hub == map[]
      && (forall m :: IsOnline(st.rows, m) <==> m in st.lost)
      && (forall s | s in st.sessions :: !st.sessions[s].muxOpen)
  {
    RunKeepsInv(st0, trace);
  }

  predicate AllAnswered(trace: seq<Event>) {
    forall i | 0 <= i < |trace| ::
      (trace[i].GoOnline? || trace[i].GoOffline? || trace[i].Restart?) ==> trace[i].reply.Answered?
  }

  lemma {:induction false} AnsweredRunsLoseNothing(st: State, trace: seq<Event>)
    requires Inv(st) && Legal(st, trace) && AllAnswered(trace)
    ensures Run(st, trace).lost <= st.lost
    decreases |trace|
  {
    if trace != [] {
      var e, st1 := trace[0], Apply(st, trace[0]);
      StepKeepsInv(st, e);
      assert AllAnswered(trace[1..]);
      if e.GoOffline? {
        assert OwnsMinion(st, e.s, st.sessions[e.s].minion);
      }
      AnsweredRunsLoseNothing(st1, trace[1..]);
    }
  }

  /** A run that starts with no row online and whose updates all answer ends with no row online. */
  lemma AnsweredRunsEndOffline(st0: State, trace: seq<Event>, m: int)
    requires Initial(st0) && st0.lost == {} && Legal(st0, trace) && AllAnswered(trace)
    requires forall s | s in Run(st0, trace).sessions :: Run(st0, trace).sessions[s].phase.Done?
    ensures !IsOnline(Run(st0, trace).rows, m)
  {
    QuiescentState(st0, trace);
    AnsweredRunsLoseNothing(st0, trace);
  }

  // ---------------------------------------------------------------------------------------------
  // What Knockout does to a successor
  // ---------------------------------------------------------------------------------------------

  /** Every session of (b, m) between Put and Del is the one the hub holds. */
  ghost predicate HeldBy(st: State, b: int, m: int) {
    forall s | s in st.sessions && st.sessions[s].broker == b && st.sessions[s].minion == m
        && InWindow(st.sessions[s].phase) ::
      (b, m) in st.hub && st.hub[(b, m)] == s
  }

  lemma StepKeepsHeld(st: State, e: Event, b: int, m: int)
    requires HeldBy(st, b, m) && Enabled(st, e)
    requires m != 0 ==> e != Knockout(b, m)
    ensures HeldBy(Apply(st, e), b, m)
  {
    var st' := Apply(st, e);
    forall s | s in st'.sessions && st'.sessions[s].broker == b && st'.sessions[s].minion == m
        && InWindow(st'.sessions[s].phase)
      ensures (b, m) in st'.hub && st'.hub[(b, m)] == s
    {
      if !e.Put? {
        assert s in st.sessions && InWindow(st.sessions[s].phase);
      }
    }
  }

  /** On a run in which (b, m) is never knocked out, Put up to Del is exactly possession of the entry. */
  lemma {:induction false} WithoutKnockoutEntryIsOwn(st: State, trace: seq<Event>, b: int, m: int)
    requires HeldBy(st, b, m) && Legal(st, trace)
    requires m != 0 ==> Knockout(b, m) !in trace
    ensures HeldBy(Run(st, trace), b, m)
    decreases |trace|
  {
    if trace != [] {
      StepKeepsHeld(st, trace[0], b, m);
      WithoutKnockoutEntryIsOwn(Apply(st, trace[0]), trace[1..], b, m);
    }
  }

  /** The step removes whatever entry (b, m) has. */
  predicate Evicts(st: State, e: Event, b: int, m: int)
    requires Enabled(st, e)
  {
    match e
    case Knockout(b', m') => b' == b && m' == m && m != 0
    case Del(s) => st.sessions[s].broker == b && st.sessions[s].minion == m
    case Restart(b', _) => b' == b
    case _ => false
  }

  predicate EvictedIn(st: State, trace: seq<Event>, b: int, m: int)
    requires Legal(st, trace)
    decreases |trace|
  {
    trace != [] && (Evicts(st, trace[0], b, m) || EvictedIn(Apply(st, trace[0]), trace[1..], b, m))
  }

  lemma LostEntryStays(st: State, e: Event, s: nat)
    requires Enabled(st, e) && s in st.sessions && !st.sessions[s].phase.Authed?
    requires s !in Dial(st, st.sessions[s].broker, st.sessions[s].minion)
    ensures var st' := Apply(st, e); var x := st.sessions[s];
      && s in st'.sessions && !st'.sessions[s].phase.Authed?
      && st'.sessions[s].broker == x.broker && st'.sessions[s].minion == x.minion
      && s !in Dial(st', x.broker, x.minion)
  {
  }

  lemma HeldEntryStays(st: State, e: Event, s: nat)
    requires Enabled(st, e) && s in st.sessions && InWindow(st.sessions[s].phase)
    requires Dial(st, st.sessions[s].broker, st.sessions[s].minion) == [s]
    ensures var st' := Apply(st, e); var x := st.sessions[s];
      && s in st'.sessions && !st'.sessions[s].phase.Authed?
      && st'.sessions[s].broker == x.broker && st'.sessions[s].minion == x.minion
      && if Evicts(st, e, x.broker, x.minion) then Dial(st', x.broker, x.minion) == []
         else InWindow(st'.sessions[s].phase) && Dial(st', x.broker, x.minion) == [s]
  {
  }

  /** Put happens once per session, so a session that has lost its entry never gets one again. */
  lemma {:induction false} LostEntryNeverReturns(st: State, trace: seq<Event>, s: nat)
    requires Legal(st, trace) && s in st.sessions && !st.sessions[s].phase.Authed?
    requires s !in Dial(st, st.sessions[s].broker, st.sessions[s].minion)
    ensures s !in Dial(Run(st, trace), st.sessions[s].broker, st.sessions[s].minion)
    decreases |trace|
  {
    if trace != [] {
      LostEntryStays(st, trace[0], s);
      LostEntryNeverReturns(Apply(st, trace[0]), trace[1..], s);
    }
  }

  /**
   A session that holds its entry is still the one dialContext picks after a run if and only if no
   step of the run was a Knockout of that minion on that broker, a Del by any session of that minion
   on that broker, or a restart of that broker.
   */
  lemma {:induction false} EntrySurvivesIff(st: State, trace: seq<Event>, s: nat)
    requires Legal(st, trace) && s in st.sessions && InWindow(st.sessions[s].phase)
    requires Dial(st, st.sessions[s].broker, st.sessions[s].minion) == [s]
    ensures var b, m := st.sessions[s].broker, st.sessions[s].minion;
      Dial(Run(st, trace), b, m) == [s] <==> !EvictedIn(st, trace, b, m)
    decreases |trace|
  {
    if trace != [] {
      var e, st1 := trace[0], Apply(st, trace[0]);
      HeldEntryStays(st, e, s);
      if Evicts(st, e, st.sessions[s].broker, st.sessions[s].minion) {
        LostEntryNeverReturns(st1, trace[1..], s);
      } else {
        EntrySurvivesIff(st1, trace[1..], s);
      }
    }
  }

  lemma TwoSteps(st: State, e: Event, e': Event, rest: seq<Event>)
    requires Enabled(st, e) && Enabled(Apply(st, e), e') && Legal(Apply(Apply(st, e), e'), rest)
    ensures Legal(st, [e, e'] + rest) && Run(st, [e, e'] + rest) == Run(Apply(Apply(st, e), e'), rest)
  {
    assert ([e, e'] + rest)[1..] == [e'] + rest && ([e'] + rest)[1..] == rest;
    assert Legal(Apply(st, e), [e'] + rest);
  }

  /** An agent that Auth lets in. */
  const GOOD := Ident("", "", IPv4(10, 0, 0, 7))

  function First(row: Row, hub: map<(int, int), nat>, p: Phase, muxOpen: bool): State {
    State(map[7 := row], hub, map[0 := Session(1, 7, p, muxOpen)], {})
  }

  function Both(row: Row, hub: map<(int, int), nat>, p: Phase, q: Phase): State {
    State(map[7 := row], hub, map[0 := Session(1, 7, p, false), 1 := Session(1, 7, q, true)], {})
  }

  function Entry(s: nat): map<(int, int), nat> {
    map[(1, 7) := s]
  }

  /** Session 0 comes online. */
  lemma FirstAuthPut(rest: seq<Event>)
    requires Legal(First(Row(Offline, 0), Entry(0), Held, true), rest)
    ensures var st, trace := State(map[], map[], map[], {}), [Auth(0, 1, 7, GOOD, Answered), Put(0)] + rest;
      Legal(st, trace) && Run(st, trace) == Run(First(Row(Offline, 0), Entry(0), Held, true), rest)
  {
    var st, e := State(map[], map[], map[], {}), Auth(0, 1, 7, GOOD, Answered);
    var authed := First(Row(Offline, 0), map[], Authed, true);
    assert Apply(st, e) == authed;
    assert Apply(authed, Put(0)).hub == Entry(0);
    assert Apply(authed, Put(0)) == First(Row(Offline, 0), Entry(0), Held, true);
    TwoSteps(st, e, Put(0), rest);
  }

  /** It is knocked out. */
  lemma FirstKnockedOut(rest: seq<Event>)
    requires Legal(First(Row(Online, 1), map[], Serving, false), rest)
    ensures var st, trace := First(Row(Offline, 0), Entry(0), Held, true), [GoOnline(0, Answered), Knockout(1, 7)] + rest;
      Legal(st, trace) && Run(st, trace) == Run(First(Row(Online, 1), map[], Serving, false), rest)
  {
    var held, serving := First(Row(Offline, 0), Entry(0), Held, true), First(Row(Online, 1), Entry(0), Serving, true);
    assert Apply(held, GoOnline(0, Answered)).rows == serving.rows;
    assert Apply(held, GoOnline(0, Answered)) == serving;
    assert Apply(serving, Knockout(1, 7)).hub == map[];
    assert Apply(serving, Knockout(1, 7)) == First(Row(Online, 1), map[], Serving, false);
    TwoSteps(held, GoOnline(0, Answered), Knockout(1, 7), rest);
  }

  /** Its row goes offline, but its deferred Del has not run yet. */
  lemma FirstGoesOffline(rest: seq<Event>)
    requires Legal(First(Row(Offline, 1), map[], Leaving, false), rest)
    ensures var st, trace := First(Row(Online, 1), map[], Serving, false), [ServeEnd(0), GoOffline(0, Answered)] + rest;
      Legal(st, trace) && Run(st, trace) == Run(First(Row(Offline, 1), map[], Leaving, false), rest)
  {
    var serving, stopped := First(Row(Online, 1), map[], Serving, false), First(Row(Online, 1), map[], Stopped, false);
    assert Apply(serving, ServeEnd(0)) == stopped;
    assert Apply(stopped, GoOffline(0, Answered)).rows == map[7 := Row(Offline, 1)];
    assert Apply(stopped, GoOffline(0, Answered)) == First(Row(Offline, 1), map[], Leaving, false);
    TwoSteps(serving, ServeEnd(0), GoOffline(0, Answered), rest);
  }

  /** Session 1 of the same agent puts its entry. */
  lemma SecondAuthPut(rest: seq<Event>)
    requires Legal(Both(Row(Offline, 1), Entry(1), Leaving, Held), rest)
    ensures var st, trace := First(Row(Offline, 1), map[], Leaving, false), [Auth(1, 1, 7, GOOD, Answered), Put(1)] + rest;
      Legal(st, trace) && Run(st, trace) == Run(Both(Row(Offline, 1), Entry(1), Leaving, Held), rest)
  {
    var st, e := First(Row(Offline, 1), map[], Leaving, false), Auth(1, 1, 7, GOOD, Answered);
    var authed := Both(Row(Offline, 1), map[], Leaving, Authed);
    assert Apply(st, e).sessions == authed.sessions;
    assert Apply(authed, Put(1)).hub == Entry(1);
    assert Apply(authed, Put(1)).sessions == Both(Row(Offline, 1), Entry(1), Leaving, Held).sessions;
    assert Apply(authed, Put(1)) == Both(Row(Offline, 1), Entry(1), Leaving, Held);
    TwoSteps(st, e, Put(1), rest);
  }

  /** It comes online, and only then session 0 runs its deferred Del. */
  lemma SecondHidden()
    ensures var st, trace := Both(Row(Offline, 1), Entry(1), Leaving, Held), [GoOnline(1, Answered), Del(0)];
      Legal(st, trace) && Run(st, trace) == Both(Row(Online, 1), map[], Closing, Serving)
  {
    var held, serving := Both(Row(Offline, 1), Entry(1), Leaving, Held), Both(Row(Online, 1), Entry(1), Leaving, Serving);
    assert Apply(held, GoOnline(1, Answered)).rows == serving.rows;
    assert Apply(held, GoOnline(1, Answered)).sessions == serving.sessions;
    assert Apply(serving, Del(0)).hub == map[];
    assert Apply(serving, Del(0)).sessions == Both(Row(Online, 1), map[], Closing, Serving).sessions;
    TwoSteps(held, GoOnline(1, Answered), Del(0), []);
    assert [GoOnline(1, Answered), Del(0)] + [] == [GoOnline(1, Answered), Del(0)];
  }

  /** The order that loses a successor's entry. */
  function HiddenSuccessor(): seq<Event> {
    [Auth(0, 1, 7, GOOD, Answered), Put(0)]
    + ([GoOnline(0, Answered), Knockout(1, 7)]
    + ([ServeEnd(0), GoOffline(0, Answered)]
    + ([Auth(1, 1, 7, GOOD, Answered), Put(1)]
    + [GoOnline(1, Answered), Del(0)])))
  }

  /** So a Knockout can leave a session that serves, is online in the table, and cannot be dialled. */
  lemma KnockoutCanHideServingSession()
    ensures var st0 := State(map[], map[], map[], {});
      && Initial(st0) && Legal(st0, HiddenSuccessor())
      && var st := Run(st0, HiddenSuccessor());
         && 1 in st.sessions && st.sessions[1].phase.Serving?
         && 7 in st.rows && st.rows[7] == Row(Online, 1)
         && Dial(st, 1, 7) == []
  {
    var last := [GoOnline(1, Answered), Del(0)];
    var second := [Auth(1, 1, 7, GOOD, Answered), Put(1)] + last;
    var leaving := [ServeEnd(0), GoOffline(0, Answered)] + second;
    SecondHidden();
    SecondAuthPut(last);
    FirstGoesOffline(second);
    FirstKnockedOut(leaving);
    FirstAuthPut([GoOnline(0, Answered), Knockout(1, 7)] + leaving);
  }

  // ---------------------------------------------------------------------------------------------
  // What each step does, written out
  // ---------------------------------------------------------------------------------------------

  /** An agent is refused before any lookup exactly for one of these; otherwise its row decides. */
  lemma AuthEffect(st: State, s: nat, b: int, m: int, ident: Ident, create: Reply)
    requires s !in st.sessions
    ensures var st' := Apply(st, Auth(s, b, m, ident, create));
      var refused := ("4." <= ident.semver && ident.machineID == "")
        || ident.inet == NotIPv4 || ident.inet.a == 127 || ident.inet == IPv4(0, 0, 0, 0);
      && st'.hub == st.hub && st'.lost == st.lost
      && (refused ==> st' == st)
      && (!refused && m in st.rows ==> st'.rows == st.rows)
      && (!refused && m !in st.rows ==> st'.rows == if create == Failed(false) then st.rows else st.rows[m := Row(Offline, 0)])
      && (s in st'.sessions <==>
            !refused
            && if m in st.rows then st.rows[m].status != Deleted && st.rows[m].status != Online else create == Answered)
      && (s in st'.sessions ==> st'.sessions == st.sessions[s := Session(b, m, Authed, true)])
      && (s !in st'.sessions ==> st'.sessions == st.sessions)
  {
  }

  lemma PutEffect(st: State, s: nat)
    requires Enabled(st, Put(s))
    ensures var st', x := Apply(st, Put(s)), st.sessions[s];
      && st'.rows == st.rows && st'.lost == st.lost
      && if (x.broker, x.minion) in st.hub then
           st'.hub == st.hub && st'.sessions == st.sessions[s := Session(x.broker, x.minion, Closing, x.muxOpen)]
         else
           st'.hub == st.hub[(x.broker, x.minion) := s]
           && st'.sessions == st.sessions[s := Session(x.broker, x.minion, Held, x.muxOpen)]
  {
  }

  /** The online update touches an offline row and no other; the session serves exactly if it did and answered. */
  lemma GoOnlineEffect(st: State, s: nat, reply: Reply)
    requires Enabled(st, GoOnline(s, reply))
    ensures var st', x := Apply(st, GoOnline(s, reply)), st.sessions[s];
      var offline := x.minion in st.rows && st.rows[x.minion].status == Offline;
      && st'.hub == st.hub
      && st'.rows == (if offline && reply != Failed(false) then st.rows[x.minion := Row(Online, x.broker)] else st.rows)
      && var p := if offline && reply == Answered then Serving else Leaving;
         st'.sessions == st.sessions[s := Session(x.broker, x.minion, p, x.muxOpen)]
  {
  }

  /** The offline update touches the row only if it is online under the session's own broker. */
  lemma GoOfflineEffect(st: State, s: nat, reply: Reply)
    requires Enabled(st, GoOffline(s, reply))
    ensures var st', x := Apply(st, GoOffline(s, reply)), st.sessions[s];
      var own := x.minion in st.rows && st.rows[x.minion] == Row(Online, x.broker);
      && st'.hub == st.hub
      && st'.rows == (if own && reply != Failed(false) then st.rows[x.minion := Row(Offline, x.broker)] else st.rows)
      && st'.sessions == st.sessions[s := Session(x.broker, x.minion, Leaving, x.muxOpen)]
  {
  }

  /** section.Del removes whatever entry the id has and closes nothing; the deferred mux.Close is the next step. */
  lemma DelEffect(st: State, s: nat)
    requires Enabled(st, Del(s))
    ensures var st', x := Apply(st, Del(s)), st.sessions[s];
      && st'.rows == st.rows && st'.lost == st.lost
      && (x.broker, x.minion) !in st'.hub
      && (forall k | k != (x.broker, x.minion) :: (k in st'.hub <==> k in st.hub) && (k in st.hub ==> st'.hub[k] == st.hub[k]))
      && st'.sessions == st.sessions[s := Session(x.broker, x.minion, Closing, x.muxOpen)]
  {
  }

  lemma EndEffect(st: State, e: Event)
    requires Enabled(st, e) && (e.ServeEnd? || e.Close? || e.Abandon?)
    ensures var st', x := Apply(st, e), st.sessions[e.s];
      && st'.rows == st.rows && st'.lost == st.lost && st'.hub == st.hub
      && var y := if e.ServeEnd? then Session(x.broker, x.minion, Stopped, x.muxOpen)
                  else Session(x.broker, x.minion, Done, false);
         st'.sessions == st.sessions[e.s := y]
  {
  }

  /** Nothing holds a session up: in every phase exactly its next step of Auth and Join can be taken, whatever the others do. */
  lemma NextStep(st: State, s: nat, b: int, m: int, ident: Ident, reply: Reply)
    ensures Enabled(st, Auth(s, b, m, ident, reply)) <==> s !in st.sessions
    ensures Enabled(st, Put(s)) <==> s in st.sessions && st.sessions[s].phase == Authed
    ensures Enabled(st, Abandon(s)) <==> s in st.sessions && st.sessions[s].phase == Authed
    ensures Enabled(st, GoOnline(s, reply)) <==> s in st.sessions && st.sessions[s].phase == Held
    ensures Enabled(st, ServeEnd(s)) <==> s in st.sessions && st.sessions[s].phase == Serving
    ensures Enabled(st, GoOffline(s, reply)) <==> s in st.sessions && st.sessions[s].phase == Stopped
    ensures Enabled(st, Del(s)) <==> s in st.sessions && st.sessions[s].phase == Leaving
    ensures Enabled(st, Close(s)) <==> s in st.sessions && st.sessions[s].phase == Closing
    ensures Enabled(st, Knockout(b, m)) && Enabled(st, Restart(b, reply))
  {
  }

  /**
   Knockout ignores id 0 and an agent without an entry. Otherwise the entry goes, the mux of the session
   it named is closed in whatever phase that session is, and nothing else changes.
   */
  lemma KnockoutEffect(st: State, b: int, m: int)
    ensures var st' := Apply(st, Knockout(b, m));
      && st'.rows == st.rows && st'.lost == st.lost && st'.sessions.Keys == st.sessions.Keys
      && (m == 0 || (b, m) !in st.hub ==> st' == st)
      && (m != 0 && (b, m) in st.hub ==>
            && (b, m) !in st'.hub
            && (forall k | k != (b, m) :: (k in st'.hub <==> k in st.hub) && (k in st.hub ==> st'.hub[k] == st.hub[k]))
            && (forall s | s in st.sessions ::
                  var x := st.sessions[s];
                  st'.sessions[s] == Session(x.broker, x.minion, x.phase, x.muxOpen && s != st.hub[(b, m)])))
  {
  }

  /** A mux once closed stays closed. */
  lemma {:induction false} ClosedMuxStays(st: State, trace: seq<Event>, s: nat)
    requires Legal(st, trace) && s in st.sessions && !st.sessions[s].muxOpen
    ensures s in Run(st, trace).sessions && !Run(st, trace).sessions[s].muxOpen
    decreases |trace|
  {
    if trace != [] {
      var st1 := Apply(st, trace[0]);
      assert s in st1.sessions && !st1.sessions[s].muxOpen;
      ClosedMuxStays(st1, trace[1..], s);
    }
  }

  /** So a knocked-out session, wherever in Join it is, has a closed mux for the rest of every run. */
  lemma KnockedOutForGood(st0: State, trace: seq<Event>, b: int, m: int, later: seq<Event>)
    requires Initial(st0) && Legal(st0, trace) && m != 0 && (b, m) in Run(st0, trace).hub
    requires Legal(Apply(Run(st0, trace), Knockout(b, m)), later)
    ensures var s := Run(st0, trace).hub[(b, m)]; var st' := Run(Apply(Run(st0, trace), Knockout(b, m)), later);
      s in st'.sessions && !st'.sessions[s].muxOpen
  {
    RunKeepsInv(st0, trace);
    var st := Run(st0, trace);
    KnockoutEffect(st, b, m);
    ClosedMuxStays(Apply(st, Knockout(b, m)), later, st.hub[(b, m)]);
  }

  /** A restart ends the broker's sessions, empties its hub, sets exactly its online rows offline, and touches nothing else. */
  lemma RestartEffect(st: State, b: int, reply: Reply)
    ensures var st' := Apply(st, Restart(b, reply));
      && st'.rows.Keys == st.rows.Keys && st'.sessions.Keys == st.sessions.Keys
      && (forall m | m in st.rows ::
            st'.rows[m] == if st.rows[m] == Row(Online, b) && reply != Failed(false) then Row(Offline, b) else st.rows[m])
      && (forall k :: k in st'.hub <==> k in st.hub && k.0 != b)
      && (forall k | k in st'.hub :: st'.hub[k] == st.hub[k])
      && (forall s | s in st.sessions ::
            var x := st.sessions[s];
            st'.sessions[s] == if x.broker == b then Session(b, x.minion, Done, false) else x)
  {
  }

  /** A row that is neither offline nor online. */
  predicate Frozen(rows: map<int, Row>, m: int) {
    m in rows && (rows[m].status == Inactive || rows[m].status == Deleted || rows[m].status == Abnormal)
  }

  /** No step of any run changes an inactive, deleted or abnormal row, or makes one. */
  lemma {:induction false} FrozenStays(st: State, trace: seq<Event>, m: int)
    requires Legal(st, trace)
    ensures Frozen(Run(st, trace).rows, m) <==> Frozen(st.rows, m)
    ensures Frozen(st.rows, m) ==> Run(st, trace).rows[m] == st.rows[m]
    decreases |trace|
  {
    if trace != [] {
      var st1 := Apply(st, trace[0]);
      assert Frozen(st1.rows, m) <==> Frozen(st.rows, m);
      FrozenStays(st1, trace[1..], m);
    }
  }

  /** dialContext finds a session exactly if the hub has its entry, so without a Knockout every serving one. */
  lemma ServingIsDialled(st0: State, trace: seq<Event>, s: nat)
    requires Initial(st0) && Legal(st0, trace)
    requires s in Run(st0, trace).sessions && Run(st0, trace).sessions[s].phase.Serving?
    requires var x := Run(st0, trace).sessions[s]; x.minion != 0 ==> Knockout(x.broker, x.minion) !in trace
    ensures var st := Run(st0, trace); var x := st.sessions[s]; Dial(st, x.broker, x.minion) == [s]
  {
    var x := Run(st0, trace).sessions[s];
    WithoutKnockoutEntryIsOwn(st0, trace, x.broker, x.minion);
  }

  // ---------------------------------------------------------------------------------------------
  // The operations as they update the shared state in place
  // ---------------------------------------------------------------------------------------------

  /** What one Join does when no other step interleaves. */
  function JoinAlone(st: State, s: nat, online: Reply, offline: Reply): State
    requires Enabled(st, Put(s))
  {
    var st1 := PutStep(st, s);
    if st1.sessions[s].phase.Closing? then CloseStep(st1, s)
    else
      var st2 := GoOnlineStep(st1, s, online);
      var st3 := if st2.sessions[s].phase.Serving?
                 then GoOfflineStep(st2.(sessions := Moved(st2, s, Stopped)), s, offline) else st2;
      CloseStep(DelStep(st3, s), s)
  }

  lemma JoinAloneHub(st: State, s: nat, online: Reply, offline: Reply)
    requires Enabled(st, Put(s))
    ensures var st' := JoinAlone(st, s, online, offline);
      && st'.hub == st.hub
      && st'.sessions == st.sessions[s := st.sessions[s].(phase := Done, muxOpen := false)]
  {
    var key := (st.sessions[s].broker, st.sessions[s].minion);
    assert key !in st.hub ==> st.hub[key := s] - {key} == st.hub;
  }

  lemma JoinAloneRows(st: State, s: nat, online: Reply, offline: Reply)
    requires Enabled(st, Put(s))
    ensures var x := st.sessions[s]; var st' := JoinAlone(st, s, online, offline);
      var hit := (x.broker, x.minion) !in st.hub && x.minion in st.rows
            && st.rows[x.minion].status.Offline? && online != Failed(false);
      && (!hit ==> st'.rows == st.rows)
      && (hit && online.Answered? && offline != Failed(false) ==>
           st'.rows == st.rows[x.minion := Row(Offline, x.broker)])
      && (hit && (online.Failed? || offline == Failed(false)) ==>
           st'.rows == st.rows[x.minion := Row(Online, x.broker)])
  {
    var x := st.sessions[s];
    assert st.rows[x.minion := Row(Online, x.broker)][x.minion := Row(Offline, x.broker)]
        == st.rows[x.minion := Row(Offline, x.broker)];
  }

  /**
   An undisturbed Join undoes itself: the hub is as it was, only the own session has changed and it
   is finished, and the row is touched only if it was offline and the key free; then it is offline
   again unless an update was lost.
   */
  lemma JoinUndoesItself(st: State, s: nat, online: Reply, offline: Reply)
    requires Enabled(st, Put(s))
    ensures var x := st.sessions[s]; var st' := JoinAlone(st, s, online, offline);
      && st'.hub == st.hub
      && st'.sessions == st.sessions[s := x.(phase := Done, muxOpen := false)]
      && var hit := (x.broker, x.minion) !in st.hub && x.minion in st.rows
            && st.rows[x.minion].status.Offline? && online != Failed(false);
         && (!hit ==> st'.rows == st.rows)
         && (hit && online.Answered? && offline != Failed(false) ==>
              st'.rows == st.rows[x.minion := Row(Offline, x.broker)])
         && (hit && (online.Failed? || offline == Failed(false)) ==>
              st'.rows == st.rows[x.minion := Row(Online, x.broker)])
  {
    JoinAloneHub(st, s, online, offline);
    JoinAloneRows(st, s, online, offline);
  }

  datatype JoinError = Nil | ErrMinionOnline | ErrUpdate

  class Cluster {
    var rows: map<int, Row>
    var hub: map<(int, int), nat>
    var sessions: map<nat, Session>
    ghost var lost: set<int>

    ghost function View(): State
      reads this
    {
      State(rows, hub, sessions, lost)
    }

    constructor (rows: map<int, Row>)
      ensures Initial(View()) && this.rows == rows
    {
      this.rows, hub, sessions := rows, map[], map[];
      lost := set m | m in rows && rows[m].status.Online?;
    }

    /** Only 202 lets a connection reach Join. */
    method Auth(s: nat, b: int, m: int, ident: Ident, create: Reply) returns (code: int)
      requires s !in sessions
      modifies this
      ensures View() == Apply(old(View()), Event.Auth(s, b, m, ident, create))
      ensures code == 400 <==>
        (("4." <= ident.semver && ident.machineID == "")
         || ident.inet == NotIPv4 || ident.inet.a == 127 || ident.inet == IPv4(0, 0, 0, 0))
      ensures code == 500 <==> code != 400 && m !in old(rows) && create.Failed?
      ensures code == 403 <==> code != 400 && m in old(rows) && old(rows)[m].status == Deleted
      ensures code == 409 <==> code != 400 && m in old(rows) && old(rows)[m].status == Online
      ensures code == 202 <==> s in sessions
      ensures code in {202, 400, 403, 409, 500}
    {
      if ident.semver != "" && "4." <= ident.semver && ident.machineID == "" {
        return 400;
      }
      var ip := ident.inet;
      if ip == NotIPv4 || ip.a == 127 || (ip.a == ip.b == ip.c == ip.d == 0) {
        return 400;
      }
      if m !in rows {
        if create != Failed(false) {
          rows := rows[m := Row(Offline, 0)];
        }
        if create.Failed? {
          return 500;
        }
      }
      var status := rows[m].status;
      if status == Deleted {
        return 403;
      }
      if status == Online {
        return 409;
      }
      sessions := sessions[s := Session(b, m, Authed, true)];
      return 202;
    }

    method Put(s: nat) returns (ok: bool)
      requires Enabled(View(), Event.Put(s))
      modifies this
      ensures View() == Apply(old(View()), Event.Put(s))
      ensures ok <==> (sessions[s].broker, sessions[s].minion) !in old(hub)
    {
      var x := sessions[s];
      ok := (x.broker, x.minion) !in hub;
      if ok {
        hub := hub[(x.broker, x.minion) := s];
      }
      sessions := sessions[s := x.(phase := if ok then Held else Closing)];
    }

    method GoOnline(s: nat, reply: Reply) returns (ok: bool)
      requires Enabled(View(), Event.GoOnline(s, reply))
      modifies this
      ensures View() == Apply(old(View()), Event.GoOnline(s, reply))
      ensures ok <==> sessions[s].phase.Serving?
    {
      var x, affected := sessions[s], 0;
      if x.minion in rows && rows[x.minion].status == Offline && reply != Failed(false) {
        rows := rows[x.minion := Row(Online, x.broker)];
        affected := 1;
      }
      ok := reply == Answered && affected == 1;
      if !ok && affected == 1 {
        lost := lost + {x.minion};
      }
      sessions := sessions[s := x.(phase := if ok then Serving else Leaving)];
    }

    method ServeEnd(s: nat)
      requires Enabled(View(), Event.ServeEnd(s))
      modifies this
      ensures View() == Apply(old(View()), Event.ServeEnd(s))
    {
      sessions := sessions[s := sessions[s].(phase := Stopped)];
    }

    method GoOffline(s: nat, reply: Reply)
      requires Enabled(View(), Event.GoOffline(s, reply))
      modifies this
      ensures View() == Apply(old(View()), Event.GoOffline(s, reply))
    {
      var x := sessions[s];
      if x.minion in rows && rows[x.minion].broker == x.broker && rows[x.minion].status == Online
         && reply != Failed(false)
      {
        rows := rows[x.minion := Row(Offline, x.broker)];
      }
      if IsOnline(rows, x.minion) {
        lost := lost + {x.minion};
      }
      sessions := sessions[s := x.(phase := Leaving)];
    }

    method Del(s: nat)
      requires Enabled(View(), Event.Del(s))
      modifies this
      ensures View() == Apply(old(View()), Event.Del(s))
    {
      var x := sessions[s];
      hub := map k | k in hub && k != (x.broker, x.minion) :: hub[k];
      sessions := sessions[s := x.(phase := Closing)];
    }

    method Close(s: nat)
      requires Enabled(View(), Event.Close(s))
      modifies this
      ensures View() == Apply(old(View()), Event.Close(s))
    {
      sessions := sessions[s := sessions[s].(phase := Done, muxOpen := false)];
    }

    method Knockout(b: int, m: int)
      modifies this
      ensures View() == Apply(old(View()), Event.Knockout(b, m))
    {
      if m == 0 {
        return;
      }
      if (b, m) in hub {
        var victim := hub[(b, m)];
        hub := map k | k in hub && k != (b, m) :: hub[k];
        if victim in sessions {
          sessions := sessions[victim := sessions[victim].(muxOpen := false)];
        }
      }
    }

    /** Join run without interruption, its deferred calls last-in first-out. */
    method Join(s: nat, online: Reply, offline: Reply) returns (err: JoinError)
      requires Enabled(View(), Event.Put(s))
      modifies this
      ensures View() == JoinAlone(old(View()), s, online, offline)
      ensures var taken := (old(sessions)[s].broker, old(sessions)[s].minion) in old(hub);
        && (err == ErrMinionOnline <==> taken)
        && (err == ErrUpdate <==> !taken && online.Failed?)
    {
      var put := Put(s);
      if !put {
        Close(s);
        return ErrMinionOnline;
      }
      var up := GoOnline(s, online);
      if up {
        ServeEnd(s);
        GoOffline(s, offline);
      }
      Del(s);
      Close(s);
      err := if online.Failed? then ErrUpdate else Nil;
    }

    /** ResetDB, run once the connections and the hub of broker b are gone. */
    method ResetDB(b: int, reply: Reply)
      modifies this`rows, this`lost
      ensures rows == ResetRows(old(rows), b, reply) && lost == Unowned(rows, old(lost), b)
      ensures rows.Keys == old(rows).Keys && forall m | m in rows ::
        rows[m] == if old(rows)[m] == Row(Online, b) && reply != Failed(false) then Row(Offline, b) else old(rows)[m]
    {
      if reply != Failed(false) {
        rows := map m | m in rows ::
          if rows[m].broker == b && rows[m].status == Online then rows[m].(status := Offline) else rows[m];
      }
      lost := set m | m in rows && rows[m].status.Online? && (m in lost || rows[m].broker == b);
    }

    method Restart(b: int, reply: Reply)
      modifies this
      ensures View() == Apply(old(View()), Event.Restart(b, reply))
    {
      hub := Survivors(hub, b);
      sessions := Dropped(sessions, b);
      ResetDB(b, reply);
    }
  }
}
