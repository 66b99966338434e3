/** The reconnecting client of channel/clientd: session ownership over dialling, authentication and serving. */
module BrokerClient {
  import opened Wrappers

  datatype ConfigError = NoError | SecretMissing | SemverMissing | AddressMissing

  /** What one address answers: the dial fails, the authentication exchange fails, or a response with a code. */
  datatype Answer = NoDial | NoAuth | Response(code: int, boot: int)

  /** checkError: any 2xx code is a success. */
  predicate Accepts(a: Answer) {
    a.Response? && 200 <= a.code < 300
  }

  // ---------------------------------------------------------------------------------------------
  // preparse
  // ---------------------------------------------------------------------------------------------

  /** net.JoinHostPort(host, "443") */
  function Join443(host: string): string {
    if ':' in host then "[" + host + "]:443" else host + ":443"
  }

  function Normal(addr: string, hasPort: string -> bool): string {
    if hasPort(addr) then addr else Join443(addr)
  }

  /** An address with a port stays; one without gets port 443, in brackets if it has a colon. */
  lemma NormalIs(addr: string, hasPort: string -> bool)
    ensures var r := Normal(addr, hasPort);
      if hasPort(addr) then r == addr
      else if ':' in addr then r == ['['] + addr + [']', ':', '4', '4', '3']
      else r == addr + [':', '4', '4', '3']
  {
    assert "[" == ['['] && "]:443" == [']', ':', '4', '4', '3'] && ":443" == [':', '4', '4', '3'];
  }

  /** The normalised addresses, each at its first occurrence. */
  function Unique(addrs: seq<string>, hasPort: string -> bool): seq<string> {
    if addrs == [] then []
    else
      var done, a := Unique(addrs[..|addrs| - 1], hasPort), Normal(addrs[|addrs| - 1], hasPort);
      if a in done then done else done + [a]
  }

  lemma {:induction false} UniqueCovers(addrs: seq<string>, hasPort: string -> bool)
    ensures forall i, j | 0 <= i < j < |Unique(addrs, hasPort)| :: Unique(addrs, hasPort)[i] != Unique(addrs, hasPort)[j]
    ensures forall i | 0 <= i < |addrs| :: Normal(addrs[i], hasPort) in Unique(addrs, hasPort)
    ensures forall a | a in Unique(addrs, hasPort) :: exists i :: 0 <= i < |addrs| && a == Normal(addrs[i], hasPort)
    ensures |Unique(addrs, hasPort)| <= |addrs| && (addrs != [] ==> Unique(addrs, hasPort) != [])
  {
    if addrs != [] {
      var front := addrs[..|addrs| - 1];
      UniqueCovers(front, hasPort);
      forall a | a in Unique(addrs, hasPort) ensures exists i :: 0 <= i < |addrs| && a == Normal(addrs[i], hasPort) {
        if a in Unique(front, hasPort) {
          var i :| 0 <= i < |front| && a == Normal(front[i], hasPort);
          assert addrs[i] == front[i];
        } else {
          assert a == Normal(addrs[|addrs| - 1], hasPort);
        }
      }
      forall i | 0 <= i < |addrs| ensures Normal(addrs[i], hasPort) in Unique(addrs, hasPort) {
        assert i < |addrs| - 1 ==> addrs[i] == addrs[..|addrs| - 1][i];
      }
    }
  }

  class Config {
    const secret: string
    const semver: string
    var addresses: seq<string>

    method Preparse(hasPort: string -> bool) returns (err: ConfigError)
      modifies this
      ensures err == SecretMissing <==> secret == ""
      ensures err == SemverMissing <==> secret != "" && semver == ""
      ensures secret != "" && semver != "" ==>
        addresses == Unique(old(addresses), hasPort) && (err == AddressMissing <==> old(addresses) == [])
      ensures err == NoError ==> addresses != []
    {
      if secret == "" {
        return SecretMissing;
      }
      if semver == "" {
        return SemverMissing;
      }
      var uniq: set<string> := {};
      var addrs := [];
      for i := 0 to |addresses|
        invariant addresses == old(addresses)
        invariant addrs == Unique(addresses[..i], hasPort)
        invariant forall a :: a in uniq <==> a in addrs
      {
        assert addresses[..i + 1][..i] == addresses[..i];
        var addr := addresses[i];
        if !hasPort(addr) {
          addr := Join443(addr);
        }
        if addr !in uniq {
          uniq := uniq + {addr};
          addrs := addrs + [addr];
        }
      }
      assert addresses[..|addresses|] == addresses;
      UniqueCovers(addresses, hasPort);
      addresses := addrs;
      err := if |addresses| == 0 then AddressMissing else NoError;
    }
  }

  // ---------------------------------------------------------------------------------------------
  // Sessions
  // ---------------------------------------------------------------------------------------------

  /** The first address that accepts. */
  function FirstAccepting(answers: seq<Answer>): (i: nat)
    ensures i <= |answers|
    ensures i < |answers| ==> Accepts(answers[i])
    ensures forall j | 0 <= j < i :: !Accepts(answers[j])
  {
    if answers == [] || Accepts(answers[0]) then 0 else 1 + FirstAccepting(answers[1..])
  }

  /** One pass over the addresses finds one that accepts. */
  predicate Succeeds(answers: seq<Answer>) {
    FirstAccepting(answers) < |answers|
  }

  /** The pass succeeds exactly if some answer is a response with a 2xx code, and the first such one counts. */
  lemma SucceedsIs(answers: seq<Answer>)
    ensures Succeeds(answers) <==> exists i | 0 <= i < |answers| :: answers[i].Response? && 200 <= answers[i].code <= 299
    ensures var i := FirstAccepting(answers);
      && (forall j | 0 <= j < i :: !(answers[j].Response? && 200 <= answers[j].code <= 299))
      && (i < |answers| ==> answers[i].Response? && 200 <= answers[i].code <= 299)
  {
    if Succeeds(answers) {
      assert Accepts(answers[FirstAccepting(answers)]);
    }
  }

  /** How the network answers one pass over the addresses. */
  function Answers(addrs: seq<string>, answer: string -> Answer): (answers: seq<Answer>)
    ensures |answers| == |addrs| && forall i | 0 <= i < |addrs| :: answers[i] == answer(addrs[i])
  {
    seq(|addrs|, i requires 0 <= i < |addrs| => answer(addrs[i]))
  }

  lemma SucceedsIff(addrs: seq<string>, answer: string -> Answer)
    ensures Succeeds(Answers(addrs, answer)) <==> exists a :: a in addrs && Accepts(answer(a))
  {
    var answers := Answers(addrs, answer);
    if Succeeds(answers) {
      assert addrs[FirstAccepting(answers)] in addrs;
    }
    if a :| a in addrs && Accepts(answer(a)) {
      var i :| 0 <= i < |addrs| && addrs[i] == a;
      assert Accepts(answers[i]);
    }
  }

  /** One of the passes made before the context is cancelled succeeds. */
  ghost predicate SucceedsInTime(addrs: seq<string>, net: nat -> string -> Answer, patience: nat) {
    exists k: nat :: k <= patience && Succeeds(Answers(addrs, net(k)))
  }

  /** Pass k is the first that succeeds, and it answers with this boot configuration. */
  ghost predicate FirstSuccess(addrs: seq<string>, net: nat -> string -> Answer, k: nat, boot: int) {
    var answers := Answers(addrs, net(k));
    && Succeeds(answers) && answers[FirstAccepting(answers)].boot == boot
    && (forall j: nat | j < k :: !Succeeds(Answers(addrs, net(j))))
  }

  /** The boot configuration is that of the first 2xx response of the first pass that has one. */
  lemma FirstSuccessIs(addrs: seq<string>, net: nat -> string -> Answer, k: nat, boot: int)
    requires FirstSuccess(addrs, net, k, boot)
    ensures exists i | 0 <= i < |addrs| ::
      && net(k)(addrs[i]).Response? && 200 <= net(k)(addrs[i]).code <= 299 && net(k)(addrs[i]).boot == boot
      && forall j | 0 <= j < i :: !(net(k)(addrs[j]).Response? && 200 <= net(k)(addrs[j]).code <= 299)
    ensures forall h: nat, j | h < k && 0 <= j < |addrs| :: !(net(h)(addrs[j]).Response? && 200 <= net(h)(addrs[j]).code <= 299)
  {
    var answers := Answers(addrs, net(k));
    SucceedsIs(answers);
    var i := FirstAccepting(answers);
    assert answers[i] == net(k)(addrs[i]);
    assert forall j | 0 <= j < i :: answers[j] == net(k)(addrs[j]);
    forall h: nat, j | h < k && 0 <= j < |addrs| ensures !(net(h)(addrs[j]).Response? && 200 <= net(h)(addrs[j]).code <= 299) {
      SucceedsIs(Answers(addrs, net(h)));
      assert Answers(addrs, net(h))[j] == net(h)(addrs[j]);
    }
  }

  /** Sessions are numbered as they are dialled; `live` are those not closed. */
  class Client {
    var dialled: nat
    var live: set<nat>
    /** The session and boot configuration in safeMuxer. */
    var session: Option<nat>
    var boot: int

    ghost predicate Valid()
      reads this
    {
      forall s | s in live :: s < dialled
    }

    constructor ()
      ensures Valid() && live == {} && session == None && dialled == 0
    {
      dialled, live, session, boot := 0, {}, None, 0;
    }

    method OpenSMUX(a: Answer) returns (sess: Option<nat>)
      requires Valid()
      modifies this`dialled, this`live
      ensures Valid()
      ensures a.NoDial? ==> sess == None && live == old(live) && dialled == old(dialled)
      ensures !a.NoDial? ==> sess == Some(old(dialled)) && dialled == old(dialled) + 1 && live == old(live) + {old(dialled)}
    {
      if a.NoDial? {
        return None;
      }
      sess := Some(dialled);
      live := live + {dialled};
      dialled := dialled + 1;
    }

    method Close(s: nat)
      requires Valid()
      modifies this`live
      ensures Valid() && live == old(live) - {s}
    {
      live := live - {s};
    }

    /** connect keeps the session it smux if and only if the response is accepted. */
    method Connect(a: Answer) returns (sess: Option<nat>)
      requires Valid()
      modifies this`dialled, this`live
      ensures Valid() && dialled == old(dialled) + if a.NoDial? then 0 else 1
      ensures var ok := a.Response? && 200 <= a.code <= 299;
        && sess == (if ok then Some(dialled - 1) else None)
        && live == (if ok then old(live) + {dialled - 1} else old(live))
    {
      var smux := OpenSMUX(a);
      if smux == None {
        return None;
      }
      assert old(dialled) !in old(live);
      if a.NoAuth? {
        Close(smux.value);
        assert live == old(live);
        return None;
      }
      if !(200 <= a.code < 300) {
        Close(smux.value);
        assert live == old(live);
        return None;
      }
      sess := smux;
    }

    /**
     connects: `failed` is whether the joined error is non-nil. The first accepting address is used and
     nothing else stays open; success without a session happens exactly for an empty address list.
     */
    method Connects(answers: seq<Answer>) returns (sess: Option<nat>, boot: int, failed: bool)
      requires Valid()
      modifies this`dialled, this`live
      ensures Valid() && dialled >= old(dialled)
      ensures var i := FirstAccepting(answers);
        && (sess.Some? <==> i < |answers|)
        && (sess.Some? ==> !failed && boot == answers[i].boot && sess.value >= old(dialled) && live == old(live) + {sess.value})
        && (sess == None ==> live == old(live))
      ensures !failed && sess == None <==> answers == []
    {
      var errs := 0;
      boot := 0;
      var i := 0;
      while i < |answers|
        invariant 0 <= i == errs <= |answers| && Valid() && dialled >= old(dialled) && live == old(live)
        invariant FirstAccepting(answers) == i + FirstAccepting(answers[i..])
      {
        assert answers[i..][1..] == answers[i + 1..];
        sess := Connect(answers[i]);
        if sess.Some? {
          return sess, answers[i].boot, false;
        }
        errs := errs + 1;
        i := i + 1;
      }
      sess, failed := None, errs > 0;
    }

    /**
     open: net(k) is how the network answers in the k-th pass over the addresses, and the context is
     cancelled in the sleep after pass `patience`. Either exactly one new session is open and it is the
     one in safeMuxer, or none is. Without addresses the original fails on a nil response.
     */
    method Open(addrs: seq<string>, net: nat -> string -> Answer, patience: nat) returns (ok: bool)
      requires Valid() && addrs != []
      modifies this
      ensures Valid() && dialled >= old(dialled)
      ensures ok ==> session.Some? && session.value >= old(dialled) && live == old(live) + {session.value}
      ensures !ok ==> live == old(live) && session == old(session) && boot == old(boot)
      ensures ok <==> SucceedsInTime(addrs, net, patience)
      ensures ok ==> exists k: nat :: k <= patience && FirstSuccess(addrs, net, k, boot)
    {
      var fails := 0;
      while true
        invariant fails <= patience && Valid() && dialled >= old(dialled)
        invariant live == old(live) && session == old(session) && boot == old(boot)
        invariant forall k: nat | k < fails :: !Succeeds(Answers(addrs, net(k)))
        decreases patience - fails
      {
        var sess, cfg, failed := Connects(Answers(addrs, net(fails)));
        if !failed {
          assert Succeeds(Answers(addrs, net(fails)));
          session, boot := sess, cfg;
          assert FirstSuccess(addrs, net, fails, boot);
          return true;
        }
        if fails == patience {
          return false;
        }
        fails := fails + 1;
      }
    }

    /**
     serve: after each spell of serving the listener closes the current session before open starts
     again. `serving` and `reconnecting` have the open sessions during each spell and at the start of
     the open after it: exactly one each time, a newer one than before, and none in between, nor when
     serve gives up.
     */
    method Serve(spells: nat, addrs: seq<string>, net: nat -> nat -> string -> Answer, patience: nat -> nat)
      returns (served: nat, ghost ids: seq<nat>, ghost serving: seq<set<nat>>, ghost reconnecting: seq<set<nat>>)
      requires Valid() && session.Some? && live == {session.value} && addrs != []
      modifies this
      ensures Valid() && served <= spells
      ensures |ids| == |serving| == |reconnecting| == if served < spells then served + 1 else spells
      ensures forall i | 0 <= i < |ids| :: serving[i] == {ids[i]} && reconnecting[i] == {}
      ensures forall i, j | 0 <= i < j < |ids| :: ids[i] < ids[j]
      ensures served < spells ==> live == {} && !SucceedsInTime(addrs, net(served), patience(served))
      ensures served == spells ==> session.Some? && live == {session.value}
    {
      served, ids, serving, reconnecting := 0, [], [], [];
      while served < spells
        invariant Valid() && served <= spells && |ids| == |serving| == |reconnecting| == served
        invariant session.Some? && live == {session.value}
        invariant forall i | 0 <= i < served :: serving[i] == {ids[i]} && reconnecting[i] == {}
        invariant forall i | 0 <= i < served :: ids[i] < session.value
        invariant forall i, j | 0 <= i < j < served :: ids[i] < ids[j]
      {
        ids, serving := ids + [session.value], serving + [live];
        Close(session.value);
        reconnecting := reconnecting + [live];
        var ok := Open(addrs, net(served), patience(served));
        if !ok {
          return;
        }
        served := served + 1;
      }
    }
  }

  /** Some address, as normalised, is accepted in one of the passes before the context is cancelled. */
  ghost predicate Reachable(addrs: seq<string>, hasPort: string -> bool, net: nat -> string -> Answer, patience: nat) {
    exists k: nat, i: nat :: k <= patience && i < |addrs| && Accepts(net(k)(Normal(addrs[i], hasPort)))
  }

  lemma ReachableIff(addrs: seq<string>, hasPort: string -> bool, net: nat -> string -> Answer, patience: nat)
    ensures Reachable(addrs, hasPort, net, patience) <==> SucceedsInTime(Unique(addrs, hasPort), net, patience)
  {
    var uniq := Unique(addrs, hasPort);
    UniqueCovers(addrs, hasPort);
    if k: nat, i: nat :| k <= patience && i < |addrs| && Accepts(net(k)(Normal(addrs[i], hasPort))) {
      SucceedsIff(uniq, net(k));
    }
    if k: nat :| k <= patience && Succeeds(Answers(uniq, net(k))) {
      SucceedsIff(uniq, net(k));
      var a :| a in uniq && Accepts(net(k)(a));
      var i: nat :| i < |addrs| && a == Normal(addrs[i], hasPort);
    }
  }

  /**
   The package's Open and the goroutine it starts, for any configuration: net(0) is how the network
   answers the first open, net(n + 1) the one after spell n. It starts if and only if the configuration
   is complete and one of its addresses is accepted in time; whenever it has given up or not started, no
   session is open, and otherwise exactly the one in safeMuxer.
   */
  method Start(cfg: Config, hasPort: string -> bool, net: nat -> nat -> string -> Answer, patience: nat -> nat, spells: nat)
    returns (err: ConfigError, started: bool, served: nat, client: Client)
    modifies cfg
    ensures err == NoError <==> cfg.secret != "" && cfg.semver != "" && old(cfg.addresses) != []
    ensures started <==> err == NoError && Reachable(old(cfg.addresses), hasPort, net(0), patience(0))
    ensures served <= spells && fresh(client) && client.Valid()
    ensures if started && served == spells then client.session.Some? && client.live == {client.session.value}
            else client.live == {}
    ensures started && served < spells ==>
      !Reachable(old(cfg.addresses), hasPort, net(served + 1), patience(served + 1))
  {
    client := new Client();
    started, served := false, 0;
    err := cfg.Preparse(hasPort);
    if err != NoError {
      return;
    }
    ghost var given := old(cfg.addresses);
    ReachableIff(given, hasPort, net(0), patience(0));
    started := client.Open(cfg.addresses, net(0), patience(0));
    if !started {
      return;
    }
    var later, lasting := (n: nat) => net(n + 1), (n: nat) => patience(n + 1);
    ghost var ids, serving, reconnecting;
    served, ids, serving, reconnecting := client.Serve(spells, cfg.addresses, later, lasting);
    ReachableIff(given, hasPort, later(served), lasting(served));
  }
}
