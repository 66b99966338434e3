/**
 The download cache of foreign/bytedance/elkeid.go: the first opener of a missing file claims its name
 and copies the body to a temporary file while it is read; closing publishes it.
 */
module ElkeidFS {

  type Bytes = seq<int>
  type Name = string

  datatype ReadErr = NoErr | EOF | Other

  datatype Phase =
    | Missed                                // os.Open failed, the lock is next
    | Claimed(owner: bool)                  // left the lock; owner: the name was not claimed before
    | Requested(body: Bytes)                // an owner whose request answered
    | Leaked                                // an owner whose request failed: Open returns without releasing
    | Live(body: Bytes, pos: nat, err: ReadErr, intact: bool)
    | Closing(body: Bytes, err: ReadErr, intact: bool) // the compare-and-swap of Close won
    | Releasing                             // renamed if at all; the claim is removed next
    | Finished                              // nothing held: done, failed, or reading the body directly

  datatype Opener = Opener(name: Name, phase: Phase)

  /** `temps` is the content of each name's temporary file, `finals` of the published ones. */
  datatype State = State(
    downs: set<Name>,
    temps: map<Name, Bytes>,
    finals: map<Name, Bytes>,
    openers: map<nat, Opener>
  )

  /**
   One call of the TeeReader: `k` bytes come from the body with error `src`, of which `j` reach the
   file. TeeReader reports a failed write instead of the source's error.
   */
  datatype Event =
    | Miss(o: nat, name: Name)
    | Claim(o: nat)
    | Request(o: nat, ok: bool, body: Bytes)
    | CreateTemp(o: nat, ok: bool)
    | Read(o: nat, k: nat, src: ReadErr, j: nat)
    | Close(o: nat)
    | Rename(o: nat, ok: bool)
    | Release(o: nat)

  predicate Enabled(st: State, e: Event) {
    match e
    case Miss(o, name) => o !in st.openers && name !in st.finals
    case Claim(o) => o in st.openers && st.openers[o].phase.Missed?
    case Request(o, _, _) => o in st.openers && st.openers[o].phase.Claimed?
    case CreateTemp(o, _) => o in st.openers && st.openers[o].phase.Requested?
    case Read(o, k, src, j) =>
      && o in st.openers && st.openers[o].phase.Live? && st.openers[o].name in st.temps
      && var p := st.openers[o].phase;
         p.pos + k <= |p.body| && (src.EOF? ==> p.pos + k == |p.body|) && j <= k
    case Close(o) => o in st.openers
    case Rename(o, _) => o in st.openers && st.openers[o].phase.Closing? && st.openers[o].name in st.temps
    case Release(o) => o in st.openers && st.openers[o].phase.Releasing?
  }

  function Moved(st: State, o: nat, p: Phase): map<nat, Opener>
    requires o in st.openers
  {
    st.openers[o := st.openers[o].(phase := p)]
  }

  function ReadStep(st: State, e: Event): State
    requires e.Read? && Enabled(st, e)
  {
    var x := st.openers[e.o];
    var p := x.phase;
    var err := if e.j < e.k then Other else e.src;
    st.(temps := st.temps[x.name := st.temps[x.name] + p.body[p.pos..p.pos + e.j]],
        openers := Moved(st, e.o, Live(p.body, p.pos + e.k, if err.NoErr? then p.err else err, p.intact && e.j == e.k)))
  }

  function Apply(st: State, e: Event): State
    requires Enabled(st, e)
  {
    match e
    case Miss(o, name) => st.(openers := st.openers[o := Opener(name, Missed)])
    case Claim(o) =>
      var name := st.openers[o].name;
      st.(downs := st.downs + {name}, openers := Moved(st, o, Claimed(name !in st.downs)))
    case Request(o, ok, body) =>
      var next := if st.openers[o].phase.owner then (if ok then Requested(body) else Leaked) else Finished;
      st.(openers := Moved(st, o, next))
    case CreateTemp(o, ok) =>
      var x := st.openers[o];
      if ok then
        st.(temps := st.temps[x.name := []], openers := Moved(st, o, Live(x.phase.body, 0, NoErr, true)))
      else
        st.(downs := st.downs - {x.name}, openers := Moved(st, o, Finished))
    case Read(_, _, _, _) => ReadStep(st, e)
    case Close(o) =>
      var p := st.openers[o].phase;
      if p.Live? then st.(openers := Moved(st, o, Closing(p.body, p.err, p.intact))) else st
    case Rename(o, ok) =>
      var x := st.openers[o];
      var st' := st.(openers := Moved(st, o, Releasing));
      if x.phase.err.EOF? && ok then
        st'.(finals := st.finals[x.name := st.temps[x.name]], temps := st.temps - {x.name})
      else st'
    case Release(o) =>
      st.(downs := st.downs - {st.openers[o].name}, openers := Moved(st, o, Finished))
  }

  predicate Legal(st: State, trace: seq<Event>)
    decreases |trace|
  {
    trace == [] || (Enabled(st, trace[0]) && Legal(Apply(st, trace[0]), trace[1..]))
  }

  function Run(st: State, trace: seq<Event>): State
    requires Legal(st, trace)
    decreases |trace|
  {
    if trace == [] then st else Run(Apply(st, trace[0]), trace[1..])
  }

  /** A new process: nothing claimed; files of earlier runs may be there. */
  ghost predicate Initial(st: State) {
    st.downs == {} && st.openers == map[]
  }

  // ---------------------------------------------------------------------------------------------
  // The invariant
  // ---------------------------------------------------------------------------------------------

  predicate Holds(p: Phase) {
    match p
    case Missed => false
    case Claimed(owner) => owner
    case Finished => false
    case _ => true
  }

  ghost predicate Holder(st: State, o: nat, name: Name) {
    o in st.openers && st.openers[o].name == name && Holds(st.openers[o].phase)
  }

  /** A name is claimed exactly while one opener holds it. */
  ghost predicate ClaimsExact(st: State) {
    && (forall o, name | Holder(st, o, name) :: name in st.downs)
    && (forall name | name in st.downs :: exists o :: Holder(st, o, name))
    && (forall o, q, name | Holder(st, o, name) && Holder(st, q, name) :: o == q)
  }

  /** The temporary file has what was read, all of it as long as every write to it was complete. */
  ghost predicate CopyOk(st: State) {
    forall o | o in st.openers :: CopyOkFor(st, o)
  }

  ghost predicate CopyOkFor(st: State, o: nat)
    requires o in st.openers
  {
    var name := st.openers[o].name;
    match st.openers[o].phase
    case Live(body, pos, err, intact) =>
      && name in st.temps && pos <= |body| && (err.EOF? ==> pos == |body|)
      && (if intact then st.temps[name] == body[..pos] else |st.temps[name]| < pos)
    case Closing(body, err, intact) =>
      && name in st.temps
      && (err.EOF? ==> if intact then st.temps[name] == body else |st.temps[name]| < |body|)
    case _ => true
  }

  ghost predicate Inv(st: State) {
    ClaimsExact(st) && CopyOk(st)
  }

  lemma OthersUntouched(st: State, e: Event, q: nat, name: Name)
    requires Enabled(st, e) && q != e.o
    ensures Holder(Apply(st, e), q, name) <==> Holder(st, q, name)
  {
  }

  /** What the step does to its own opener's hold and to its name's claim. */
  lemma OwnClaim(st: State, e: Event)
    requires ClaimsExact(st) && Enabled(st, e)
    ensures var st' := Apply(st, e);
      && e.o in st'.openers
      && var n := st'.openers[e.o].name;
         && (forall name | name != n ::
               (name in st'.downs <==> name in st.downs) && !Holder(st', e.o, name) && !Holder(st, e.o, name))
         && (Holder(st', e.o, n) <==> (Holder(st, e.o, n) && n in st'.downs) || (n in st'.downs && n !in st.downs))
         && (n in st'.downs || Holder(st, e.o, n) || n !in st.downs)
  {
    assert forall name :: Holder(st, e.o, name) ==> name in st.downs;
    if e.o in st.openers && Holds(st.openers[e.o].phase) {
      assert Holder(st, e.o, st.openers[e.o].name);
    }
  }

  lemma StepKeepsClaims(st: State, e: Event)
    requires ClaimsExact(st) && Enabled(st, e)
    ensures ClaimsExact(Apply(st, e))
  {
    var st' := Apply(st, e);
    OwnClaim(st, e);
    var n := st'.openers[e.o].name;
    forall o, name | Holder(st', o, name) ensures name in st'.downs {
      if o != e.o {
        OthersUntouched(st, e, o, name);
        assert Holder(st, o, name);
        assert name == n ==> !Holder(st, e.o, n);
      }
    }
    forall o, q, name | Holder(st', o, name) && Holder(st', q, name) ensures o == q {
      if o != e.o {
        OthersUntouched(st, e, o, name);
      }
      if q != e.o {
        OthersUntouched(st, e, q, name);
      }
    }
    forall name | name in st'.downs ensures exists o :: Holder(st', o, name) {
      if name in st.downs {
        var q :| Holder(st, q, name);
        if q != e.o {
          OthersUntouched(st, e, q, name);
        }
        assert Holder(st', q, name);
      } else {
        assert Holder(st', e.o, name);
      }
    }
  }

  lemma OwnCopyKept(st: State, e: Event)
    requires Inv(st) && Enabled(st, e)
    ensures e.o in Apply(st, e).openers && CopyOkFor(Apply(st, e), e.o)
  {
    if e.o in st.openers {
      assert CopyOkFor(st, e.o);
      var p := st.openers[e.o].phase;
      if e.Read? {
        assert p.body[..p.pos] + p.body[p.pos..p.pos + e.k] == p.body[..p.pos + e.k];
      } else if p.Live? {
        assert p.body[..|p.body|] == p.body;
      }
    }
  }

  /** Nobody but the holder of a name touches its temporary file. */
  lemma OtherCopyKept(st: State, e: Event, o: nat)
    requires Inv(st) && Enabled(st, e) && o in st.openers && o != e.o
    ensures CopyOkFor(Apply(st, e), o)
  {
    assert CopyOkFor(st, o);
    if e.CreateTemp? || e.Read? || e.Rename? {
      assert Holder(st, e.o, st.openers[e.o].name);
      assert Holds(st.openers[o].phase) ==> Holder(st, o, st.openers[o].name);
    }
  }

  lemma StepKeepsInv(st: State, e: Event)
    requires Inv(st) && Enabled(st, e)
    ensures Inv(Apply(st, e))
  {
    StepKeepsClaims(st, e);
    var st' := Apply(st, e);
    forall o | o in st'.openers ensures CopyOkFor(st', o) {
      if o == e.o {
        OwnCopyKept(st, e);
      } else {
        OtherCopyKept(st, e, o);
      }
    }
  }

  lemma {:induction false} RunKeepsInv(st: State, trace: seq<Event>)
    requires Inv(st) && Legal(st, trace)
    ensures Inv(Run(st, trace))
    decreases |trace|
  {
    if trace != [] {
      StepKeepsInv(st, trace[0]);
      RunKeepsInv(Apply(st, trace[0]), trace[1..]);
    }
  }

  // ---------------------------------------------------------------------------------------------
  // Safety over whole runs
  // ---------------------------------------------------------------------------------------------

  /** Of each name at most one copy is under way, and its name is claimed. */
  lemma AtMostOneCopy(st0: State, trace: seq<Event>, o: nat, q: nat)
    requires Initial(st0) && Legal(st0, trace)
    requires var st := Run(st0, trace);
      && o in st.openers && q in st.openers && st.openers[o].name == st.openers[q].name
      && st.openers[o].phase.Live? && st.openers[q].phase.Live?
    ensures o == q && Run(st0, trace).openers[o].name in Run(st0, trace).downs
  {
    RunKeepsInv(st0, trace);
    var st := Run(st0, trace);
    assert Holder(st, o, st.openers[o].name) && Holder(st, q, st.openers[o].name);
  }

  /** Removing the claim on Close never takes another opener's claim, and a second Close does nothing. */
  lemma ReleaseIsOwn(st0: State, trace: seq<Event>, o: nat)
    requires Initial(st0) && Legal(st0, trace) && o in Run(st0, trace).openers
    ensures var st := Run(st0, trace); var x := st.openers[o];
      && (x.phase.Releasing? ==> x.name in st.downs && forall q | q != o :: !Holder(st, q, x.name))
      && (!x.phase.Live? ==> Apply(st, Close(o)) == st)
  {
    RunKeepsInv(st0, trace);
    var st := Run(st0, trace);
    assert st.openers[o].phase.Releasing? ==> Holder(st, o, st.openers[o].name);
  }

  /**
   What a Close publishes: something only after the reader has seen EOF, and then the complete body if
   and only if every write to the temporary file was complete.
   */
  lemma PublishedIsCompleteIff(st0: State, trace: seq<Event>, o: nat, ok: bool)
    requires Initial(st0) && Legal(st0, trace) && Enabled(Run(st0, trace), Rename(o, ok))
    ensures var st := Run(st0, trace); var st' := Apply(st, Rename(o, ok)); var x := st.openers[o];
      if x.phase.err.EOF? && ok then
        x.name in st'.finals && (st'.finals[x.name] == x.phase.body <==> x.phase.intact)
      else st'.finals == st.finals
  {
    RunKeepsInv(st0, trace);
    assert CopyOkFor(Run(st0, trace), o);
  }

  /** The reader of every copy stops at its first error. */
  ghost predicate StopsAtError(st: State, trace: seq<Event>)
    requires Legal(st, trace)
    decreases |trace|
  {
    trace != [] ==>
      && (trace[0].Read? ==> st.openers[trace[0].o].phase.err.NoErr?)
      && StopsAtError(Apply(st, trace[0]), trace[1..])
  }

  ghost predicate EofIntact(st: State) {
    forall o | o in st.openers ::
      && (st.openers[o].phase.Live? && !st.openers[o].phase.intact ==> st.openers[o].phase.err.Other?)
      && (st.openers[o].phase.Closing? && !st.openers[o].phase.intact ==> st.openers[o].phase.err.Other?)
  }

  lemma {:induction false} StoppingReadersStayIntact(st: State, trace: seq<Event>)
    requires EofIntact(st) && Legal(st, trace) && StopsAtError(st, trace)
    ensures EofIntact(Run(st, trace))
    decreases |trace|
  {
    if trace != [] {
      assert EofIntact(Apply(st, trace[0]));
      StoppingReadersStayIntact(Apply(st, trace[0]), trace[1..]);
    }
  }

  /** So if readers stop at their first error, whatever Close publishes is the complete body. */
  lemma StoppingReadersPublishAll(st0: State, trace: seq<Event>, o: nat, ok: bool)
    requires Initial(st0) && Legal(st0, trace) && StopsAtError(st0, trace) && Enabled(Run(st0, trace), Rename(o, ok))
    ensures var st := Run(st0, trace); var st' := Apply(st, Rename(o, ok)); var x := st.openers[o];
      st'.finals != st.finals ==> x.name in st'.finals && st'.finals[x.name] == x.phase.body
  {
    PublishedIsCompleteIff(st0, trace, o, ok);
    StoppingReadersStayIntact(st0, trace);
  }

  // ---------------------------------------------------------------------------------------------
  // What goes wrong
  // ---------------------------------------------------------------------------------------------

  lemma OneStep(st: State, e: Event, rest: seq<Event>)
    requires Enabled(st, e) && Legal(Apply(st, e), rest)
    ensures Legal(st, [e] + rest) && Run(st, [e] + rest) == Run(Apply(st, e), rest)
  {
    assert ([e] + rest)[1..] == rest;
  }

  lemma TwoSteps(st: State, e: Event, e': Event, rest: seq<Event>)
    requires Enabled(st, e) && Enabled(Apply(st, e), e') && Legal(Apply(Apply(st, e), e'), rest)
    ensures Legal(st, [e, e'] + rest) && Run(st, [e, e'] + rest) == Run(Apply(Apply(st, e), e'), rest)
  {
    OneStep(Apply(st, e), e', rest);
    OneStep(st, e, [e'] + rest);
    assert [e] + ([e'] + rest) == [e, e'] + rest;
  }

  /** Opener 0 alone, on a name. */
  function Sole(downs: set<Name>, temps: map<Name, Bytes>, finals: map<Name, Bytes>, p: Phase): State {
    State(downs, temps, finals, map[0 := Opener("ko", p)])
  }

  lemma SoleClaims(rest: seq<Event>)
    requires Legal(Sole({"ko"}, map[], map[], Claimed(true)), rest)
    ensures var st, trace := State({}, map[], map[], map[]), [Miss(0, "ko"), Claim(0)] + rest;
      Legal(st, trace) && Run(st, trace) == Run(Sole({"ko"}, map[], map[], Claimed(true)), rest)
  {
    var st, missed := State({}, map[], map[], map[]), Sole({}, map[], map[], Missed);
    assert Apply(st, Miss(0, "ko")) == missed;
    assert Apply(missed, Claim(0)).downs == {"ko"};
    assert Apply(missed, Claim(0)) == Sole({"ko"}, map[], map[], Claimed(true));
    TwoSteps(st, Miss(0, "ko"), Claim(0), rest);
  }

  lemma SoleCreates(rest: seq<Event>)
    requires Legal(Sole({"ko"}, map["ko" := []], map[], Live([7], 0, NoErr, true)), rest)
    ensures var st, trace := Sole({"ko"}, map[], map[], Claimed(true)), [Request(0, true, [7]), CreateTemp(0, true)] + rest;
      Legal(st, trace) && Run(st, trace) == Run(Sole({"ko"}, map["ko" := []], map[], Live([7], 0, NoErr, true)), rest)
  {
    var st, asked := Sole({"ko"}, map[], map[], Claimed(true)), Sole({"ko"}, map[], map[], Requested([7]));
    assert Apply(st, Request(0, true, [7])) == asked;
    assert Apply(asked, CreateTemp(0, true)) == Sole({"ko"}, map["ko" := []], map[], Live([7], 0, NoErr, true));
    TwoSteps(st, Request(0, true, [7]), CreateTemp(0, true), rest);
  }

  /** The one byte of the body does not reach the file; the reader goes on and sees EOF. */
  lemma SoleReads(rest: seq<Event>)
    requires Legal(Sole({"ko"}, map["ko" := []], map[], Live([7], 1, EOF, false)), rest)
    ensures var st, trace := Sole({"ko"}, map["ko" := []], map[], Live([7], 0, NoErr, true)),
          [Read(0, 1, NoErr, 0), Read(0, 0, EOF, 0)] + rest;
      Legal(st, trace) && Run(st, trace) == Run(Sole({"ko"}, map["ko" := []], map[], Live([7], 1, EOF, false)), rest)
  {
    var st := Sole({"ko"}, map["ko" := []], map[], Live([7], 0, NoErr, true));
    var failed := Sole({"ko"}, map["ko" := []], map[], Live([7], 1, Other, false));
    assert Apply(st, Read(0, 1, NoErr, 0)).temps == map["ko" := []];
    assert Apply(st, Read(0, 1, NoErr, 0)) == failed;
    assert Apply(failed, Read(0, 0, EOF, 0)).temps == map["ko" := []];
    assert Apply(failed, Read(0, 0, EOF, 0)) == Sole({"ko"}, map["ko" := []], map[], Live([7], 1, EOF, false));
    TwoSteps(st, Read(0, 1, NoErr, 0), Read(0, 0, EOF, 0), rest);
  }

  lemma SolePublishes()
    ensures var st, trace := Sole({"ko"}, map["ko" := []], map[], Live([7], 1, EOF, false)), [Close(0), Rename(0, true)];
      Legal(st, trace) && Run(st, trace).finals == map["ko" := []]
  {
    var st := Sole({"ko"}, map["ko" := []], map[], Live([7], 1, EOF, false));
    var closing := Sole({"ko"}, map["ko" := []], map[], Closing([7], EOF, false));
    assert Apply(st, Close(0)) == closing;
    assert Apply(closing, Rename(0, true)).finals == map["ko" := []];
    TwoSteps(st, Close(0), Rename(0, true), []);
    assert [Close(0), Rename(0, true)] + [] == [Close(0), Rename(0, true)];
  }

  function CarelessRun(): seq<Event> {
    [Miss(0, "ko"), Claim(0)]
    + ([Request(0, true, [7]), CreateTemp(0, true)]
    + ([Read(0, 1, NoErr, 0), Read(0, 0, EOF, 0)] + [Close(0), Rename(0, true)]))
  }

  /** A reader that goes on after a failed copy publishes an empty file in place of a body of one byte. */
  lemma CarelessReaderPublishesPart()
    ensures var st0 := State({}, map[], map[], map[]);
      && Initial(st0) && Legal(st0, CarelessRun())
      && Run(st0, CarelessRun()).finals == map["ko" := []]
  {
    var closing := [Close(0), Rename(0, true)];
    var reading := [Read(0, 1, NoErr, 0), Read(0, 0, EOF, 0)] + closing;
    SolePublishes();
    SoleReads(closing);
    SoleCreates(reading);
    SoleClaims([Request(0, true, [7]), CreateTemp(0, true)] + reading);
  }

  /** A claim whose request failed is never released: its name is never downloaded to the cache again. */
  lemma {:induction false} LeakedClaimStays(st: State, trace: seq<Event>, o: nat)
    requires Inv(st) && Legal(st, trace) && o in st.openers && st.openers[o].phase.Leaked?
    ensures var name := st.openers[o].name; var st' := Run(st, trace);
      && name in st'.downs
      && (name in st'.finals <==> name in st.finals) && (name in st.finals ==> st'.finals[name] == st.finals[name])
      && forall q | q in st'.openers && st'.openers[q].name == name :: !st'.openers[q].phase.Live?
    decreases |trace|
  {
    var name := st.openers[o].name;
    assert Holder(st, o, name);
    if trace == [] {
      forall q | q in st.openers && st.openers[q].name == name ensures !st.openers[q].phase.Live? {
        assert Holds(st.openers[q].phase) ==> Holder(st, q, name);
      }
    } else {
      var e, st1 := trace[0], Apply(st, trace[0]);
      StepKeepsInv(st, e);
      if e.Rename? {
        assert Holder(st, e.o, st.openers[e.o].name);
      }
      assert o in st1.openers && st1.openers[o] == st.openers[o];
      LeakedClaimStays(st1, trace[1..], o);
    }
  }

  function LeakingRun(): seq<Event> {
    [Miss(0, "ko"), Claim(0)] + [Request(0, false, [])]
  }

  lemma LeakingRunLeaks()
    ensures var st0 := State({}, map[], map[], map[]);
      Initial(st0) && Legal(st0, LeakingRun()) && Run(st0, LeakingRun()) == Sole({"ko"}, map[], map[], Leaked)
  {
    var claimed, e := Sole({"ko"}, map[], map[], Claimed(true)), Request(0, false, []);
    assert [e][1..] == [];
    assert Apply(claimed, e) == Sole({"ko"}, map[], map[], Leaked);
    SoleClaims([e]);
  }

  /**
   A concrete run to that point: the first opener's request fails, and however the run goes on the name
   stays claimed and is never published.
   */
  lemma FailedRequestBlocksName(trace: seq<Event>)
    requires Legal(Sole({"ko"}, map[], map[], Leaked), trace)
    ensures var st0 := State({}, map[], map[], map[]);
      Initial(st0) && Legal(st0, LeakingRun()) && Run(st0, LeakingRun()) == Sole({"ko"}, map[], map[], Leaked)
    ensures var st := Run(Sole({"ko"}, map[], map[], Leaked), trace);
      "ko" in st.downs && "ko" !in st.finals
  {
    LeakingRunLeaks();
    RunKeepsInv(State({}, map[], map[], map[]), LeakingRun());
    LeakedClaimStays(Sole({"ko"}, map[], map[], Leaked), trace, 0);
  }

  /** When every opener is through, a name is still claimed exactly if its request failed. */
  lemma QuiescentClaims(st0: State, trace: seq<Event>, name: Name)
    requires Initial(st0) && Legal(st0, trace)
    requires forall o | o in Run(st0, trace).openers ::
      Run(st0, trace).openers[o].phase.Finished? || Run(st0, trace).openers[o].phase.Leaked?
    ensures var st := Run(st0, trace);
      name in st.downs <==> exists o :: o in st.openers && st.openers[o] == Opener(name, Leaked)
  {
    RunKeepsInv(st0, trace);
    var st := Run(st0, trace);
    if name in st.downs {
      var o :| Holder(st, o, name);
      assert st.openers[o] == Opener(name, Leaked);
    }
    if o :| o in st.openers && st.openers[o] == Opener(name, Leaked) {
      assert Holder(st, o, name);
    }
  }

  // ---------------------------------------------------------------------------------------------
  // What each step does, written out
  // ---------------------------------------------------------------------------------------------

  /** Under the lock the name is claimed, and only the opener that found it free becomes its owner. */
  lemma ClaimEffect(st: State, o: nat, name: Name)
    requires Enabled(st, Miss(o, name))
    ensures var st1 := Apply(st, Miss(o, name)); var st' := Apply(st1, Claim(o));
      && st1.downs == st.downs && st'.downs == st.downs + {name}
      && st'.temps == st.temps && st'.finals == st.finals
      && st'.openers == st.openers[o := Opener(name, Claimed(name !in st.downs))]
  {
    assert st.openers[o := Opener(name, Missed)][o := Opener(name, Claimed(name !in st.downs))]
        == st.openers[o := Opener(name, Claimed(name !in st.downs))];
  }

  /** In every phase exactly the opener's next step can be taken, whatever the others do. */
  lemma NextStep(st: State, o: nat, name: Name, ok: bool, body: Bytes)
    ensures Enabled(st, Miss(o, name)) <==> o !in st.openers && name !in st.finals
    ensures Enabled(st, Claim(o)) <==> o in st.openers && st.openers[o].phase == Missed
    ensures Enabled(st, Request(o, ok, body)) <==> o in st.openers && st.openers[o].phase.Claimed?
    ensures Enabled(st, CreateTemp(o, ok)) <==> o in st.openers && st.openers[o].phase.Requested?
    ensures Enabled(st, Close(o)) <==> o in st.openers
    ensures Enabled(st, Release(o)) <==> o in st.openers && st.openers[o].phase == Releasing
  {
  }

  /** On every run a live copy can be read to the end of its body, and a closing one can be renamed. */
  lemma CopyGoesOn(st0: State, trace: seq<Event>, o: nat, k: nat, src: ReadErr, j: nat)
    requires Initial(st0) && Legal(st0, trace) && o in Run(st0, trace).openers
    ensures var st := Run(st0, trace); var p := st.openers[o].phase;
      && (p.Live? && p.pos + k <= |p.body| && (src == EOF ==> p.pos + k == |p.body|) && j <= k ==>
            Enabled(st, Read(o, k, src, j)))
      && (p.Closing? ==> Enabled(st, Rename(o, true)))
  {
    RunKeepsInv(st0, trace);
    assert CopyOkFor(Run(st0, trace), o);
  }

  /** A failed request leaves the claim as it is; one that is not the owner reads the body without a copy. */
  lemma RequestEffect(st: State, o: nat, ok: bool, body: Bytes)
    requires Enabled(st, Request(o, ok, body))
    ensures var st', x := Apply(st, Request(o, ok, body)), st.openers[o];
      && st'.downs == st.downs && st'.temps == st.temps && st'.finals == st.finals
      && var p := if x.phase.owner && ok then Requested(body) else if x.phase.owner then Leaked else Finished;
         st'.openers == st.openers[o := Opener(x.name, p)]
  {
  }

  /** The owner starts from an empty temporary file; if it cannot create it the claim is released. */
  lemma CreateTempEffect(st: State, o: nat, ok: bool)
    requires Enabled(st, CreateTemp(o, ok))
    ensures var st', x := Apply(st, CreateTemp(o, ok)), st.openers[o];
      && st'.finals == st.finals
      && st'.downs == (if ok then st.downs else st.downs - {x.name})
      && st'.temps == (if ok then st.temps[x.name := []] else st.temps)
      && st'.openers == st.openers[o := Opener(x.name, if ok then Live(x.phase.body, 0, NoErr, true) else Finished)]
  {
  }

  /**
   A read takes the next k bytes of the body, of which j are appended to the temporary file; it
   remembers a write error in place of the source's, and no error leaves what was remembered.
   */
  lemma ReadEffect(st: State, o: nat, k: nat, src: ReadErr, j: nat)
    requires Enabled(st, Read(o, k, src, j))
    ensures var st', x := Apply(st, Read(o, k, src, j)), st.openers[o];
      var p := x.phase;
      && st'.downs == st.downs && st'.finals == st.finals
      && st'.temps == st.temps[x.name := st.temps[x.name] + p.body[p.pos..p.pos + j]]
      && var err := if j < k then Other else if src == NoErr then p.err else src;
         st'.openers == st.openers[o := Opener(x.name, Live(p.body, p.pos + k, err, p.intact && j == k))]
  {
  }

  /** Only the first Close does anything; it renames after EOF and no other error, and then releases the claim. */
  lemma CloseEffect(st: State, o: nat, ok: bool)
    requires o in st.openers
    ensures !st.openers[o].phase.Live? ==> Apply(st, Close(o)) == st
    ensures st.openers[o].phase.Live? && st.openers[o].name in st.temps ==>
      var x := st.openers[o];
      var st1 := Apply(st, Close(o)); var st2 := Apply(st1, Rename(o, ok)); var st3 := Apply(st2, Release(o));
      && st3.downs == st.downs - {x.name}
      && st3.temps == (if x.phase.err == EOF && ok then st.temps - {x.name} else st.temps)
      && st3.finals == (if x.phase.err == EOF && ok then st.finals[x.name := st.temps[x.name]] else st.finals)
      && st3.openers[o] == Opener(x.name, Finished)
      && (forall q | q in st.openers && q != o :: q in st3.openers && st3.openers[q] == st.openers[q])
  {
  }

  // ---------------------------------------------------------------------------------------------
  // The operations as they update the file system object in place
  // ---------------------------------------------------------------------------------------------

  /** The steps of one Open that misses; `claimed` is whether the name was claimed before. */
  function OpenTrace(o: nat, name: Name, claimed: bool, answered: bool, body: Bytes, creates: bool): seq<Event> {
    [Miss(o, name), Claim(o)]
    + ([Request(o, answered, body)] + if answered && !claimed then [CreateTemp(o, creates)] else [])
  }

  /** Where that leaves the opener. */
  function OpenedPhase(claimed: bool, answered: bool, body: Bytes, creates: bool): Phase {
    if claimed then Finished
    else if !answered then Leaked
    else if creates then Live(body, 0, NoErr, true)
    else Finished
  }

  lemma RequestRun(st: State, o: nat, answered: bool, body: Bytes, creates: bool)
    requires o in st.openers && st.openers[o].phase.Claimed?
    ensures var x, claimed := st.openers[o], !st.openers[o].phase.owner;
      var trace := [Request(o, answered, body)] + if answered && !claimed then [CreateTemp(o, creates)] else [];
      var p := OpenedPhase(claimed, answered, body, creates);
      && Legal(st, trace)
      && Run(st, trace) == State(
           if !claimed && p.Finished? then st.downs - {x.name} else st.downs,
           if p.Live? then st.temps[x.name := []] else st.temps,
           st.finals,
           st.openers[o := Opener(x.name, p)])
  {
    if answered && st.openers[o].phase.owner {
      assert [CreateTemp(o, creates)][1..] == [];
      OneStep(st, Request(o, answered, body), [CreateTemp(o, creates)]);
    } else {
      OneStep(st, Request(o, answered, body), []);
    }
  }

  lemma OpenRun(st: State, o: nat, name: Name, answered: bool, body: Bytes, creates: bool)
    requires o !in st.openers && name !in st.finals
    ensures var claimed := name in st.downs;
      var trace, p := OpenTrace(o, name, claimed, answered, body, creates), OpenedPhase(claimed, answered, body, creates);
      && Legal(st, trace)
      && Run(st, trace) == State(
           if claimed || p.Leaked? || p.Live? then st.downs + {name} else st.downs,
           if p.Live? then st.temps[name := []] else st.temps,
           st.finals,
           st.openers[o := Opener(name, p)])
  {
    var claimed := name in st.downs;
    var st1 := State(st.downs + {name}, st.temps, st.finals, st.openers[o := Opener(name, Claimed(!claimed))]);
    assert Apply(Apply(st, Miss(o, name)), Claim(o)) == st1;
    assert !claimed ==> st.downs + {name} - {name} == st.downs;
    RequestRun(st1, o, answered, body, creates);
    TwoSteps(st, Miss(o, name), Claim(o),
             [Request(o, answered, body)] + if answered && !claimed then [CreateTemp(o, creates)] else []);
  }

  /** What Open returns: a published file, the body itself, a copy, or an error. */
  datatype Opened = Published(content: Bytes) | Direct(body: Bytes) | Copy(copy: CopyFile) | Error

  class FS {
    var downs: set<Name>
    var temps: map<Name, Bytes>
    var finals: map<Name, Bytes>
    ghost var openers: map<nat, Opener>

    ghost function View(): State
      reads this
    {
      State(downs, temps, finals, openers)
    }

    constructor (temps: map<Name, Bytes>, finals: map<Name, Bytes>)
      ensures Initial(View()) && this.finals == finals && this.temps == temps
    {
      downs, this.temps, this.finals, openers := {}, temps, finals, map[];
    }

    /** Open without interruption; `answered` is whether the request was, `body` the body of the response. */
    method Open(ghost o: nat, name: Name, answered: bool, body: Bytes, creates: bool) returns (r: Opened)
      requires o !in openers
      modifies this`downs, this`temps, this`openers
      ensures name in old(finals) ==> r == Published(finals[name]) && View() == old(View())
      ensures name !in old(finals) ==>
        var claimed := name in old(downs);
        var trace := OpenTrace(o, name, claimed, answered, body, creates);
        && Legal(old(View()), trace) && View() == Run(old(View()), trace)
        && !r.Published?
        && (r.Direct? <==> claimed && answered) && (r.Direct? ==> r.body == body)
        && (r.Copy? <==> !claimed && answered && creates)
      ensures r.Copy? ==> fresh(r.copy) && r.copy.fs == this && r.copy.o == o && r.copy.Valid() && !r.copy.closed
    {
      if name in finals {
        return Published(finals[name]);
      }
      OpenRun(View(), o, name, answered, body, creates);
      var exist := name in downs;
      openers := openers[o := Opener(name, OpenedPhase(exist, answered, body, creates))];
      if !exist {
        downs := downs + {name};
      }
      if !answered {
        assert downs == old(downs) + {name};
        return Error;
      }
      if exist {
        assert downs == old(downs) + {name};
        return Direct(body);
      }
      if !creates {
        downs := downs - {name};
        assert downs == old(downs);
        return Error;
      }
      temps := temps[name := []];
      var cf := new CopyFile(this, o, name, body);
      r := Copy(cf);
    }
  }

  class CopyFile {
    const fs: FS
    const name: Name
    const body: Bytes
    ghost const o: nat
    var pos: nat
    var err: ReadErr
    var closed: bool
    ghost var intact: bool

    /** The file system knows this copy as the live one of its opener, until it is closed. */
    ghost predicate Valid()
      reads this, fs
    {
      !closed ==> o in fs.openers && fs.openers[o] == Opener(name, Live(body, pos, err, intact))
    }

    constructor (fs: FS, ghost o: nat, name: Name, body: Bytes)
      requires o in fs.openers && fs.openers[o] == Opener(name, Live(body, 0, NoErr, true))
      ensures this.fs == fs && this.o == o && this.name == name && this.body == body && !closed && Valid()
    {
      this.fs, this.o, this.name, this.body, pos, err, closed, intact := fs, o, name, body, 0, NoErr, false, true;
    }

    /**
     Read through the TeeReader: see the event of the same name. A read after Close takes nothing from
     the closed body and fails.
     */
    method Read(k: nat, src: ReadErr, j: nat) returns (n: nat, e: ReadErr)
      requires Valid() && (!closed ==> Enabled(fs.View(), Event.Read(o, k, src, j)))
      requires closed ==> k == j == 0 && src.Other?
      modifies this`pos, this`err, this`intact, fs`temps, fs`openers
      ensures Valid()
      ensures fs.View() == if closed then old(fs.View()) else Apply(old(fs.View()), Event.Read(o, k, src, j))
      ensures e == if j < k then Other else src
      ensures n == if j < k then j else k
      ensures err == if e == NoErr then old(err) else e
    {
      if closed {
        err := Other;
        return 0, Other;
      }
      fs.temps := fs.temps[name := fs.temps[name] + body[pos..pos + j]];
      pos := pos + k;
      if j < k {
        n, e := j, Other;
      } else {
        n, e := k, src;
      }
      if e != NoErr {
        err := e;
      }
      intact := intact && j == k;
      fs.openers := fs.openers[o := Opener(name, Live(body, pos, err, intact))];
    }

    /** Close: the first call publishes after EOF and releases the claim, later calls do nothing. */
    method Close(renames: bool)
      requires Valid() && (!closed ==> name in fs.temps)
      modifies this`closed, fs`downs, fs`temps, fs`finals, fs`openers
      ensures closed
      ensures old(closed) ==> fs.View() == old(fs.View())
      ensures !old(closed) ==>
        var trace := [Event.Close(o), Rename(o, renames)] + [Release(o)];
        && Legal(old(fs.View()), trace) && fs.View() == Run(old(fs.View()), trace)
        && name !in fs.downs
        && (fs.finals == if err == EOF && renames then old(fs.finals)[name := old(fs.temps)[name]] else old(fs.finals))
    {
      if closed {
        return;
      }
      CloseRun(fs.View(), o, renames);
      closed := true;
      if err == EOF && renames {
        fs.finals := fs.finals[name := fs.temps[name]];
        fs.temps := fs.temps - {name};
      }
      fs.downs := fs.downs - {name};
      fs.openers := fs.openers[o := Opener(name, Finished)];
    }
  }

  lemma CloseRun(st: State, o: nat, renames: bool)
    requires o in st.openers && st.openers[o].phase.Live? && st.openers[o].name in st.temps
    ensures var x, trace := st.openers[o], [Close(o), Rename(o, renames)] + [Release(o)];
      && Legal(st, trace)
      && Run(st, trace) == State(
           st.downs - {x.name},
           if x.phase.err.EOF? && renames then st.temps - {x.name} else st.temps,
           if x.phase.err.EOF? && renames then st.finals[x.name := st.temps[x.name]] else st.finals,
           st.openers[o := Opener(x.name, Finished)])
  {
    var st2 := Apply(Apply(st, Close(o)), Rename(o, renames));
    assert [Release(o)][1..] == [];
    assert st2.openers == st.openers[o := Opener(st.openers[o].name, Releasing)];
    TwoSteps(st, Close(o), Rename(o, renames), [Release(o)]);
  }
}
