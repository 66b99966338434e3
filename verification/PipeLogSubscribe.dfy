/**
 Subscribing to one file of library/pipelog: registration, the piecewise history read, appends,
 truncations and notifications are separate atomic steps of concurrent goroutines.
 */
module PipeLogSubscribe {
  import opened Wrappers
  import LimitedFile

  type Bytes = LimitedFile.Bytes
  type Record = Bytes
  type Subscriber = nat

  /** The buffer of the history read. */
  const BLOCK := 4096

  /** Where the notifyAll of one appended record stands. */
  datatype Note =
    | Appended                          // written, submap not read yet
    | Sending(targets: set<Subscriber>) // the copied subscribers not written to yet

  /**
   The history read of one Subscriber call: not begun, under way on an open file (an inode, and the
   oldest record that was in it then), given up on an error, or at the end of the file when the
   file's records were `oldest` to `upto`.
   */
  datatype Read =
    | Waiting
    | Reading(inode: nat, from: nat, data: Bytes)
    | GivenUp
    | Ended(oldest: nat, upto: nat, data: Bytes)

  /**
   Where the holder of the file lock stands in Write: nobody holds it, the file is open and the write is
   next, or it is written and the truncation is next, the log having had `before` records before.
   */
  datatype Writing =
    | Idle
    | Opened(r: Record, io: LimitedFile.IO)
    | Written(io: LimitedFile.IO, before: nat)

  /** One call of Subscriber: its writer, how long the log was when it registered, its history read. */
  datatype Call = Call(w: Subscriber, since: nat, read: Read)

  /**
   `log` is every record ever written; the file holds log[kept..]. `partial` are those of which only a
   part was written: they are not notified. `removed` are the contents of files that were removed,
   which readers may still have open. `subs` maps a subscriber to the length of the log when it
   registered, `got` counts, by position in the log, the records notified to it since.
   */
  datatype State = State(
    file: LimitedFile.FileState,
    writing: Writing,
    log: seq<Record>,
    kept: nat,
    partial: set<nat>,
    removed: seq<Bytes>,
    notes: seq<Note>,
    subs: map<Subscriber, nat>,
    calls: map<nat, Call>,
    got: map<Subscriber, multiset<nat>>
  )

  datatype Event =
    | Register(c: nat, w: Subscriber)
    | ReadOpen(c: nat, ok: bool)
    | ReadBlock(c: nat, n: nat)
    | ReadFail(c: nat)
    | WriteOpen(r: Record, io: LimitedFile.IO)
    | WriteBytes
    | WriteTruncate
    | ReadTargets(i: nat)
    | Notify(i: nat, w: Subscriber)
    | Unregister(w: Subscriber)
    | Resize(size: int, io: LimitedFile.IO)
    | IdleClose
    | Remove(removes: bool)

  function Flat(records: seq<Record>): Bytes {
    if records == [] then [] else records[0] + Flat(records[1..])
  }

  predicate Enabled(st: State, e: Event) {
    match e
    case Register(c, _) => c !in st.calls
    case ReadOpen(c, _) => c in st.calls && st.calls[c].read.Waiting?
    case ReadBlock(c, n) => c in st.calls && st.calls[c].read.Reading? && 0 < n <= BLOCK
    case ReadFail(c) => c in st.calls && st.calls[c].read.Reading?
    case WriteOpen(_, _) => st.writing.Idle?
    case WriteBytes => st.writing.Opened?
    case WriteTruncate => st.writing.Written?
    case Resize(_, _) => st.writing.Idle?
    case IdleClose => st.writing.Idle?
    case Remove(_) => st.writing.Idle?
    case ReadTargets(i) =>
      i < |st.notes| && st.notes[i].Appended? && (st.writing.Written? ==> i < st.writing.before)
    case Notify(i, w) => i < |st.notes| && st.notes[i].Sending? && w in st.notes[i].targets
    case _ => true
  }

  function Seen(st: State, w: Subscriber): multiset<nat> {
    if w in st.got then st.got[w] else multiset{}
  }

  /** What an open file holds now: the file under the name, or one that was removed meanwhile. */
  function Inode(st: State, i: nat): Bytes {
    if i < |st.removed| then st.removed[i] else LimitedFile.ContentOf(st.file.disk)
  }

  function WithRead(st: State, c: nat, read: Read): State
    requires c in st.calls
  {
    st.(calls := st.calls[c := st.calls[c].(read := read)])
  }

  /** os.OpenInRoot; a missing file has nothing to read. */
  function OpenStep(st: State, c: nat, ok: bool): State
    requires c in st.calls
  {
    if !ok then WithRead(st, c, GivenUp)
    else if st.file.disk.Missing? then WithRead(st, c, Ended(st.kept, |st.log|, []))
    else WithRead(st, c, Reading(|st.removed|, st.kept, []))
  }

  /** One read of at most n bytes at the reader's offset; at the end of the file the history is complete. */
  function BlockStep(st: State, c: nat, n: nat): State
    requires c in st.calls && st.calls[c].read.Reading?
  {
    var r := st.calls[c].read;
    var content, pos := Inode(st, r.inode), |r.data|;
    if pos >= |content| then WithRead(st, c, Ended(st.kept, |st.log|, r.data))
    else
      var end := if pos + n < |content| then pos + n else |content|;
      WithRead(st, c, Reading(r.inode, r.from, r.data + content[pos..end]))
  }

  /** limitedFile.truncate empties the file. */
  predicate Empties(f: LimitedFile.FileState, io: LimitedFile.IO) {
    f.isOpen && f.filesize >= f.maxsize && io.truncates
  }

  /** limitedFile.Write takes the lock and opens the file; if that fails it returns. */
  function WriteOpenStep(st: State, r: Record, io: LimitedFile.IO): State {
    var f := LimitedFile.OpenStep(st.file, io);
    st.(file := f, writing := if f.isOpen then Opened(r, io) else Idle)
  }

  /** The bytes taken are a new record; only a complete one will be notified, once the lock is free. */
  function WriteBytesStep(st: State): State
    requires st.writing.Opened?
  {
    var r, io := st.writing.r, st.writing.io;
    var n := LimitedFile.Taken(r, io);
    st.(file := LimitedFile.Extended(st.file, r, io),
        writing := Written(io, |st.log|),
        log := if n == 0 then st.log else st.log + [r[..n]],
        partial := if 0 < n < |r| then st.partial + {|st.log|} else st.partial,
        notes := if n == 0 then st.notes else st.notes + [if n == |r| then Appended else Sending({})])
  }

  function TruncateStep(st: State): State
    requires st.writing.Written?
  {
    var io := st.writing.io;
    st.(file := LimitedFile.TruncateStep(st.file, io),
        writing := Idle,
        kept := if Empties(st.file, io) then |st.log| else st.kept)
  }

  function Apply(st: State, e: Event): State
    requires Enabled(st, e)
  {
    match e
    case Register(c, w) =>
      var st1 := st.(calls := st.calls[c := Call(w, |st.log|, Waiting)]);
      if w in st.subs then st1 else st1.(subs := st.subs[w := |st.log|], got := st.got[w := multiset{}])
    case ReadOpen(c, ok) => OpenStep(st, c, ok)
    case ReadBlock(c, n) => BlockStep(st, c, n)
    case ReadFail(c) => WithRead(st, c, GivenUp)
    case WriteOpen(r, io) => WriteOpenStep(st, r, io)
    case WriteBytes => WriteBytesStep(st)
    case WriteTruncate => TruncateStep(st)
    case ReadTargets(i) => st.(notes := st.notes[i := Sending(st.subs.Keys)])
    case Notify(i, w) =>
      st.(notes := st.notes[i := Sending(st.notes[i].targets - {w})],
          got := st.got[w := Seen(st, w) + multiset{i}])
    case Unregister(w) => st.(subs := st.subs - {w})
    case Resize(n, io) =>
      st.(file := LimitedFile.ResizeStep(st.file, n, io),
          kept := if n > 0 && Empties(st.file.(maxsize := n), io) then |st.log| else st.kept)
    case IdleClose => st.(file := LimitedFile.CloseStep(st.file))
    case Remove(removes) =>
      st.(file := LimitedFile.RemoveStep(st.file, removes),
          kept := if removes then |st.log| else st.kept,
          removed := if removes then st.removed + [LimitedFile.ContentOf(st.file.disk)] else st.removed)
  }

  predicate Legal(st: State, trace: seq<Event>)
    decreases |trace|
  {
    trace == [] || (Enabled(st, trace[0]) && Legal(Apply(st, trace[0]), trace[1..]))
  }

  function Run(st: State, trace: seq<Event>): State
    requires Legal(st, trace)
    decreases |trace|
  {
    if trace == [] then st else Run(Apply(st, trace[0]), trace[1..])
  }

  /** A new process: no subscribers, and whatever records the file holds from before. */
  ghost predicate Initial(st: State) {
    && LimitedFile.Fresh(st.file) && LimitedFile.ContentOf(st.file.disk) == Flat(st.log)
    && st.writing.Idle? && st.kept == 0 && st.partial == {} && st.removed == []
    && |st.notes| == |st.log| && (forall i | 0 <= i < |st.notes| :: st.notes[i] == Sending({}))
    && st.subs == map[] && st.calls == map[] && st.got == map[]
  }

  // ---------------------------------------------------------------------------------------------
  // Notifications
  // ---------------------------------------------------------------------------------------------

  /** The notification of record i will still reach w. */
  predicate Due(st: State, i: nat, w: Subscriber)
    requires i < |st.notes|
  {
    st.notes[i].Appended? || w in st.notes[i].targets
  }

  /** How often record i has been or will be notified to w. */
  function Weight(st: State, i: nat, w: Subscriber): nat
    requires i < |st.notes|
  {
    Seen(st, w)[i] + if Due(st, i, w) then 1 else 0
  }

  ghost predicate WeightOk(st: State, i: nat, w: Subscriber)
    requires i < |st.notes| && w in st.subs
  {
    && Weight(st, i, w) <= 1
    && (st.subs[w] <= i && i !in st.partial ==> Weight(st, i, w) == 1)
    && (i in st.partial ==> Weight(st, i, w) == 0)
  }

  /** Once if appended after registration; an older record, at most once; a partial one, never. */
  ghost predicate Delivery(st: State) {
    forall w, i: nat | w in st.subs && i < |st.notes| :: WeightOk(st, i, w)
  }

  ghost predicate SeenBounded(st: State) {
    forall w, i: nat | w in st.subs && |st.log| <= i :: Seen(st, w)[i] == 0
  }

  ghost predicate Bounds(st: State) {
    && st.kept <= |st.log| == |st.notes|
    && (forall w | w in st.subs :: st.subs[w] <= |st.log|)
    && (forall i | i in st.partial :: i < |st.log| && st.notes[i] == Sending({}))
  }

  lemma StepKeepsBounds(st: State, e: Event)
    requires Bounds(st) && Enabled(st, e)
    ensures Bounds(Apply(st, e))
  {
  }

  lemma StepKeepsSeen(st: State, e: Event)
    requires SeenBounded(st) && Bounds(st) && Enabled(st, e)
    ensures SeenBounded(Apply(st, e))
  {
    var st' := Apply(st, e);
    forall v, j: nat | v in st'.subs && |st'.log| <= j ensures Seen(st', v)[j] == 0 {
      if v in st.subs {
        assert Seen(st, v)[j] == 0;
      }
    }
  }

  lemma NotifyOne(st: State, i: nat, w: Subscriber)
    requires Enabled(st, Notify(i, w))
    ensures var st1 := Apply(st, Notify(i, w));
      && st1.notes == st.notes[i := Sending(st.notes[i].targets - {w})]
      && Seen(st1, w) == Seen(st, w) + multiset{i}
      && forall v | v != w :: Seen(st1, v) == Seen(st, v)
  {
  }

  /** A notification moves one unit of weight from due to seen. */
  lemma NotifyKeepsWeight(st: State, i: nat, w: Subscriber, j: nat, v: Subscriber)
    requires Enabled(st, Notify(i, w)) && j < |st.notes|
    ensures Weight(Apply(st, Notify(i, w)), j, v) == Weight(st, j, v)
  {
    NotifyOne(st, i, w);
    if i == j && v == w {
      assert Due(st, j, v) && !Due(Apply(st, Notify(i, w)), j, v);
    } else {
      assert Seen(Apply(st, Notify(i, w)), v)[j] == Seen(st, v)[j];
    }
  }

  /** Steps other than WriteBytes, Register and Notify register nobody, append nothing and deliver nothing. */
  lemma NothingDelivered(st: State, e: Event)
    requires Enabled(st, e) && !e.WriteBytes? && !e.Register? && !e.Notify?
    ensures var st' := Apply(st, e);
      && st'.got == st.got && st'.partial == st.partial
      && (forall v | v in st'.subs :: v in st.subs && st'.subs[v] == st.subs[v])
      && st'.notes == if e.ReadTargets? then st.notes[e.i := Sending(st.subs.Keys)] else st.notes
  {
  }

  /** So they leave every registered subscriber's weights alone. */
  lemma WeightKept(st: State, e: Event, j: nat, v: Subscriber)
    requires Enabled(st, e) && !e.WriteBytes? && !e.Register? && !e.Notify?
    requires v in Apply(st, e).subs && j < |st.notes|
    ensures |Apply(st, e).notes| == |st.notes| && v in st.subs
    ensures Apply(st, e).subs[v] == st.subs[v] && Apply(st, e).partial == st.partial
    ensures Weight(Apply(st, e), j, v) == Weight(st, j, v)
  {
    NothingDelivered(st, e);
  }

  lemma WriteKeepsWeight(st: State, j: nat, v: Subscriber)
    requires Delivery(st) && SeenBounded(st) && Bounds(st) && Enabled(st, WriteBytes)
    requires v in st.subs && j < |WriteBytesStep(st).notes|
    ensures WeightOk(WriteBytesStep(st), j, v)
  {
    var st' := WriteBytesStep(st);
    assert Seen(st', v) == Seen(st, v);
    if j < |st.notes| {
      assert WeightOk(st, j, v);
      assert st'.notes[j] == st.notes[j];
      assert j in st'.partial <==> j in st.partial;
    }
  }

  lemma RegisterKeepsWeight(st: State, c: nat, w: Subscriber, j: nat, v: Subscriber)
    requires Delivery(st) && Bounds(st) && Enabled(st, Register(c, w))
    requires v in Apply(st, Register(c, w)).subs && j < |st.notes|
    ensures WeightOk(Apply(st, Register(c, w)), j, v)
  {
    var st' := Apply(st, Register(c, w));
    if v in st.subs {
      assert WeightOk(st, j, v);
      assert Weight(st', j, v) == Weight(st, j, v);
    } else {
      assert Seen(st', v) == multiset{};
    }
  }

  lemma StepKeepsDelivery(st: State, e: Event)
    requires Delivery(st) && SeenBounded(st) && Bounds(st) && Enabled(st, e)
    ensures Delivery(Apply(st, e))
  {
    var st' := Apply(st, e);
    forall v, j: nat | v in st'.subs && j < |st'.notes| ensures WeightOk(st', j, v) {
      match e
      case WriteBytes => WriteKeepsWeight(st, j, v);
      case Register(c, w) => RegisterKeepsWeight(st, c, w, j, v);
      case Notify(i, w) =>
        NotifyKeepsWeight(st, i, w, j, v);
        assert WeightOk(st, j, v);
      case _ =>
        WeightKept(st, e, j, v);
        assert WeightOk(st, j, v);
    }
  }

  // ---------------------------------------------------------------------------------------------
  // The log is what the size-bounded file holds
  // ---------------------------------------------------------------------------------------------

  lemma {:induction false} FlatSnoc(records: seq<Record>, r: Record)
    ensures Flat(records + [r]) == Flat(records) + r
  {
    if records == [] {
      assert records + [r] == [r] && [r][1..] == [];
    } else {
      assert (records + [r])[1..] == records[1..] + [r];
      FlatSnoc(records[1..], r);
    }
  }

  lemma {:induction false} FlatSplit(a: seq<Record>, b: seq<Record>)
    ensures Flat(a + b) == Flat(a) + Flat(b)
  {
    if a == [] {
      assert a + b == b;
    } else {
      assert (a + b)[1..] == a[1..] + b;
      FlatSplit(a[1..], b);
    }
  }

  /** The file holds exactly the records the log keeps, byte for byte. */
  ghost predicate Holds(st: State) {
    st.kept <= |st.log| && LimitedFile.ContentOf(st.file.disk) == Flat(st.log[st.kept..])
  }

  lemma WriteHolds(st: State)
    requires Holds(st) && Enabled(st, WriteBytes)
    ensures Holds(WriteBytesStep(st))
  {
    var r, n := st.writing.r, LimitedFile.Taken(st.writing.r, st.writing.io);
    if n > 0 {
      assert (st.log + [r[..n]])[st.kept..] == st.log[st.kept..] + [r[..n]];
      FlatSnoc(st.log[st.kept..], r[..n]);
    } else {
      assert r[..n] == [];
    }
  }

  lemma StepHolds(st: State, e: Event)
    requires Holds(st) && Enabled(st, e)
    ensures Holds(Apply(st, e))
  {
    assert st.log[|st.log|..] == [];
    match e
    case WriteBytes => WriteHolds(st);
    case _ =>
  }

  // ---------------------------------------------------------------------------------------------
  // Readers
  // ---------------------------------------------------------------------------------------------

  /** Neither truncated nor removed since the reader opened it. */
  predicate Untouched(st: State, r: Read) {
    r.Reading? && r.inode == |st.removed| && r.from == st.kept
  }

  /**
   What a reader has is the beginning of the file, or the records that were in the file have gone and
   every record still there was appended after the call had registered its writer.
   */
  ghost predicate ReaderOk(st: State, x: Call) {
    && x.since <= |st.log|
    && match x.read
       case Reading(inode, from, data) =>
         && inode <= |st.removed| && from <= st.kept
         && (Untouched(st, x.read) ==> data <= LimitedFile.ContentOf(st.file.disk))
         && (!Untouched(st, x.read) ==> x.since <= st.kept)
       case Ended(oldest, upto, data) =>
         && oldest <= upto <= |st.log| && x.since <= upto
         && (data == Flat(st.log[oldest..upto]) || x.since <= oldest)
       case _ => true
  }

  ghost predicate Readers(st: State) {
    forall c | c in st.calls :: ReaderOk(st, st.calls[c])
  }

  /** A write leaves the records before it, and what a reader has read, where they were. */
  lemma WriteKeepsReader(st: State, x: Call)
    requires Holds(st) && ReaderOk(st, x) && Enabled(st, WriteBytes)
    ensures ReaderOk(WriteBytesStep(st), x)
  {
    if x.read.Ended? {
      assert WriteBytesStep(st).log[x.read.oldest..x.read.upto] == st.log[x.read.oldest..x.read.upto];
    }
  }

  lemma BlockKeepsReader(st: State, c: nat, n: nat)
    requires Holds(st) && Readers(st) && Enabled(st, ReadBlock(c, n))
    ensures ReaderOk(BlockStep(st, c, n), BlockStep(st, c, n).calls[c])
  {
    var r := st.calls[c].read;
    assert ReaderOk(st, st.calls[c]);
    assert st.log[st.kept..|st.log|] == st.log[st.kept..];
  }

  lemma OwnKeepsReader(st: State, e: Event, c: nat)
    requires Holds(st) && Readers(st) && Enabled(st, e)
    requires (e.Register? || e.ReadOpen? || e.ReadFail?) && e.c == c
    ensures ReaderOk(Apply(st, e), Apply(st, e).calls[c])
  {
    if c in st.calls {
      assert ReaderOk(st, st.calls[c]);
    }
    assert st.log[st.kept..|st.log|] == st.log[st.kept..];
  }

  /** Opening, truncating, closing and removing the file. */
  lemma FileKeepsReader(st: State, e: Event, x: Call)
    requires Holds(st) && ReaderOk(st, x) && Enabled(st, e)
    requires e.WriteOpen? || e.WriteTruncate? || e.Resize? || e.IdleClose? || e.Remove?
    ensures ReaderOk(Apply(st, e), x)
  {
    assert st.log[|st.log|..] == [];
    if !e.Remove? && Apply(st, e).kept == st.kept < |st.log| {
      assert LimitedFile.ContentOf(Apply(st, e).file.disk) == LimitedFile.ContentOf(st.file.disk);
    }
  }

  /** What leaves the file and the log alone and is not about this reader. */
  lemma AsideKeepsReader(st: State, e: Event, c: nat)
    requires Enabled(st, e) && c in Apply(st, e).calls
    requires e.ReadTargets? || e.Notify? || e.Unregister?
      || ((e.Register? || e.ReadOpen? || e.ReadBlock? || e.ReadFail?) && e.c != c)
    ensures c in st.calls && Apply(st, e).calls[c] == st.calls[c]
    ensures ReaderOk(st, st.calls[c]) ==> ReaderOk(Apply(st, e), st.calls[c])
  {
    assert Apply(st, e).file == st.file && Apply(st, e).log == st.log;
  }

  lemma StepKeepsReaders(st: State, e: Event)
    requires Holds(st) && Readers(st) && Enabled(st, e)
    ensures Readers(Apply(st, e))
  {
    var st' := Apply(st, e);
    forall c | c in st'.calls ensures ReaderOk(st', st'.calls[c]) {
      if e.WriteBytes? {
        assert ReaderOk(st, st.calls[c]);
        WriteKeepsReader(st, st.calls[c]);
      } else if e.WriteOpen? || e.WriteTruncate? || e.Resize? || e.IdleClose? || e.Remove? {
        assert ReaderOk(st, st.calls[c]);
        FileKeepsReader(st, e, st.calls[c]);
      } else if e.ReadBlock? && e.c == c {
        BlockKeepsReader(st, c, e.n);
      } else if (e.Register? || e.ReadOpen? || e.ReadFail?) && e.c == c {
        OwnKeepsReader(st, e, c);
      } else {
        assert ReaderOk(st, st.calls[c]);
        AsideKeepsReader(st, e, c);
      }
    }
  }

  ghost predicate Inv(st: State) {
    Delivery(st) && SeenBounded(st) && Bounds(st) && Holds(st) && Readers(st)
  }

  lemma StepKeepsInv(st: State, e: Event)
    requires Inv(st) && Enabled(st, e)
    ensures Inv(Apply(st, e))
  {
    StepKeepsBounds(st, e);
    StepKeepsSeen(st, e);
    StepKeepsDelivery(st, e);
    StepHolds(st, e);
    StepKeepsReaders(st, e);
  }

  lemma {:induction false} RunKeepsInv(st: State, trace: seq<Event>)
    requires Inv(st) && Legal(st, trace)
    ensures Inv(Run(st, trace))
    decreases |trace|
  {
    if trace != [] {
      StepKeepsInv(st, trace[0]);
      RunKeepsInv(Apply(st, trace[0]), trace[1..]);
    }
  }

  /** Runs start from any file whose content is any records. */
  lemma ProcessStarts(maxsize: int, disk: LimitedFile.Disk, log: seq<Record>)
    requires (if disk.Present? then disk.content else []) == Flat(log)
    ensures Initial(State(LimitedFile.FileState(maxsize, false, 0, disk), Idle, log, 0, {}, [],
                          seq(|log|, _ => Sending({})), map[], map[], map[]))
  {
  }

  lemma InitialInv(st: State)
    requires Initial(st)
    ensures Inv(st)
  {
    assert st.log[0..] == st.log;
  }

  /** On every run, whichever file operations fail, the file holds exactly the records the log keeps. */
  lemma FileHoldsLog(st0: State, trace: seq<Event>)
    requires Initial(st0) && Legal(st0, trace)
    ensures Holds(Run(st0, trace))
  {
    InitialInv(st0);
    RunKeepsInv(st0, trace);
  }

  /**
   A history read that reaches the end of a file which was neither truncated nor removed meanwhile has
   read the whole file as it is at the end, records appended during the read included.
   */
  lemma HistoryIsWholeFile(st0: State, trace: seq<Event>, c: nat, n: nat)
    requires Initial(st0) && Legal(st0, trace) && Enabled(Run(st0, trace), ReadBlock(c, n))
    requires Untouched(Run(st0, trace), Run(st0, trace).calls[c].read)
    ensures var st := Run(st0, trace); var read := Apply(st, ReadBlock(c, n)).calls[c].read;
      read.Ended? ==>
        && read.oldest <= read.upto == |st.log|
        && read.data == LimitedFile.ContentOf(st.file.disk) == Flat(st.log[read.oldest..read.upto])
  {
    InitialInv(st0);
    RunKeepsInv(st0, trace);
    var st := Run(st0, trace);
    assert ReaderOk(st, st.calls[c]);
    assert st.log[st.kept..|st.log|] == st.log[st.kept..];
  }

  // ---------------------------------------------------------------------------------------------
  // No gap
  // ---------------------------------------------------------------------------------------------

  /** Record i of the log is in the history, at the place of its bytes in the file. */
  ghost predicate InHistory(st: State, read: Read, i: nat) {
    && read.Ended? && read.oldest <= i < read.upto <= |st.log|
    && var at := |Flat(st.log[read.oldest..i])|;
       at + |st.log[i]| <= |read.data| && read.data[at..at + |st.log[i]|] == st.log[i]
  }

  lemma FlatAt(log: seq<Record>, a: nat, i: nat, b: nat)
    requires a <= i < b <= |log|
    ensures var data, at := Flat(log[a..b]), |Flat(log[a..i])|;
      at + |log[i]| <= |data| && data[at..at + |log[i]|] == log[i]
  {
    assert log[a..b] == log[a..i] + log[i..b];
    FlatSplit(log[a..i], log[i..b]);
    assert log[i..b][0] == log[i];
  }

  /**
   No gap: on every interleaving, once a history read has reached the end of the file, each record from
   the oldest one then in the file on is in that history or was appended after its writer registered;
   and each complete record appended since has been notified exactly once or its notification is due.
   This needs the writer to have stayed registered since the call.
   */
  lemma NoGap(st0: State, trace: seq<Event>, c: nat, i: nat)
    requires Initial(st0) && Legal(st0, trace) && c in Run(st0, trace).calls
    requires var st := Run(st0, trace); var x := st.calls[c];
      x.read.Ended? && x.w in st.subs && st.subs[x.w] <= x.since && x.read.oldest <= i < |st.log|
    ensures var st := Run(st0, trace); var x := st.calls[c];
      && |st.notes| == |st.log|
      && (InHistory(st, x.read, i) || st.subs[x.w] <= i)
      && (st.subs[x.w] <= i && i !in st.partial ==> Seen(st, x.w)[i] == if Due(st, i, x.w) then 0 else 1)
  {
    InitialInv(st0);
    RunKeepsInv(st0, trace);
    var st := Run(st0, trace);
    var x := st.calls[c];
    assert ReaderOk(st, x);
    assert WeightOk(st, i, x.w);
    if i < x.since {
      FlatAt(st.log, x.read.oldest, i, x.read.upto);
    }
  }

  /**
   Once nothing is due, the subscriber's notifications since registration are exactly the complete
   records appended since then, each once, plus some earlier ones at most once each.
   */
  lemma AllNotified(st0: State, trace: seq<Event>, w: Subscriber, i: nat)
    requires Initial(st0) && Legal(st0, trace) && w in Run(st0, trace).subs
    requires var st := Run(st0, trace);
      forall j | 0 <= j < |st.notes| :: !Due(st, j, w)
    ensures var st := Run(st0, trace);
      && Seen(st, w)[i] <= 1
      && (st.subs[w] <= i < |st.log| ==> Seen(st, w)[i] == if i in st.partial then 0 else 1)
      && (|st.log| <= i ==> Seen(st, w)[i] == 0)
  {
    InitialInv(st0);
    RunKeepsInv(st0, trace);
    var st := Run(st0, trace);
    if i < |st.log| {
      assert WeightOk(st, i, w);
    }
  }

  /** The notification of record i has not copied its targets yet, or copied them without w. */
  predicate Untargeted(st: State, w: Subscriber, i: nat) {
    i < |st.notes| ==> st.notes[i].Appended? || w !in st.notes[i].targets
  }

  lemma StepKeepsUntargeted(st: State, e: Event, w: Subscriber, i: nat)
    requires Enabled(st, e) && w !in st.subs && Untargeted(st, w, i) && !(e.Register? && e.w == w)
    ensures w !in Apply(st, e).subs && Untargeted(Apply(st, e), w, i)
  {
  }

  lemma StepKeepsUnseen(st: State, e: Event, w: Subscriber, i: nat)
    requires Enabled(st, e) && w !in st.subs && Untargeted(st, w, i) && !(e.Register? && e.w == w)
    ensures Seen(Apply(st, e), w)[i] == Seen(st, w)[i]
  {
  }

  /**
   After Unregister, a notification that copies its targets later never reaches the subscriber, whatever
   other notifications were in flight, until it registers again.
   */
  lemma {:induction false} NotNotifiedAfterUnregister(st: State, trace: seq<Event>, w: Subscriber, i: nat)
    requires Legal(st, trace) && w !in st.subs && Untargeted(st, w, i)
    requires forall j | 0 <= j < |trace| :: !(trace[j].Register? && trace[j].w == w)
    ensures Seen(Run(st, trace), w)[i] == Seen(st, w)[i] && w !in Run(st, trace).subs
    decreases |trace|
  {
    if trace != [] {
      StepKeepsUntargeted(st, trace[0], w, i);
      StepKeepsUnseen(st, trace[0], w, i);
      NotNotifiedAfterUnregister(Apply(st, trace[0]), trace[1..], w, i);
    }
  }

  // ---------------------------------------------------------------------------------------------
  // Write run without interruption
  // ---------------------------------------------------------------------------------------------

  /** The three steps of an uninterrupted Write do to the file what limitedFile.Write does. */
  lemma WriteIsRun(st: State, r: Record, io: LimitedFile.IO)
    requires Enabled(st, WriteOpen(r, io))
    ensures var st1 := Apply(st, WriteOpen(r, io));
      if st1.writing.Idle? then st1.file == st.file == LimitedFile.WriteStep(st.file, r, io)
      else
        var st3 := Apply(Apply(st1, WriteBytes), WriteTruncate);
        && st3.file == LimitedFile.WriteStep(st.file, r, io)
        && st3.writing.Idle?
        && (st3.kept == st.kept || LimitedFile.ContentOf(st3.file.disk) == [])
  {
  }

  // ---------------------------------------------------------------------------------------------
  // What each step does, written out
  // ---------------------------------------------------------------------------------------------

  /**
   What can happen when: a notification waits only for the lock of its own write, a copied subscriber and
   a reader for nothing, and the operations of the file for each other.
   */
  lemma NextStep(st: State, c: nat, w: Subscriber, i: nat, n: nat, r: Record, io: LimitedFile.IO, ok: bool, size: int)
    ensures Enabled(st, Register(c, w)) <==> c !in st.calls
    ensures Enabled(st, Unregister(w))
    ensures Enabled(st, ReadOpen(c, ok)) <==> c in st.calls && st.calls[c].read == Waiting
    ensures Enabled(st, ReadBlock(c, n)) <==> c in st.calls && st.calls[c].read.Reading? && 0 < n <= 4096
    ensures Enabled(st, ReadFail(c)) <==> c in st.calls && st.calls[c].read.Reading?
    ensures Enabled(st, ReadTargets(i)) <==>
      i < |st.notes| && st.notes[i] == Appended && !(st.writing.Written? && st.writing.before <= i)
    ensures Enabled(st, Notify(i, w)) <==> i < |st.notes| && st.notes[i].Sending? && w in st.notes[i].targets
    ensures Enabled(st, WriteOpen(r, io)) <==> st.writing == Idle
    ensures Enabled(st, WriteBytes) <==> st.writing.Opened?
    ensures Enabled(st, WriteTruncate) <==> st.writing.Written?
    ensures Enabled(st, Resize(size, io)) <==> st.writing == Idle
    ensures Enabled(st, IdleClose) <==> st.writing == Idle
    ensures Enabled(st, Remove(ok)) <==> st.writing == Idle
  {
  }

  lemma RegisterEffect(st: State, c: nat, w: Subscriber)
    requires Enabled(st, Register(c, w))
    ensures var st' := Apply(st, Register(c, w));
      && st'.file == st.file && st'.log == st.log && st'.kept == st.kept && st'.notes == st.notes
      && st'.calls == st.calls[c := Call(w, |st.log|, Waiting)]
      && st'.subs == (if w in st.subs then st.subs else st.subs[w := |st.log|])
      && (w !in st.subs ==> w in st'.got && st'.got[w] == multiset{})
      && (forall v | v != w || w in st.subs :: (v in st'.got <==> v in st.got) && (v in st.got ==> st'.got[v] == st.got[v]))
  {
  }

  /** The bytes a reader would find now: in the named file, or in the removed one it still has open. */
  ghost predicate Finds(st: State, inode: nat, content: Bytes) {
    if inode < |st.removed| then content == st.removed[inode]
    else content == if st.file.disk.Present? then st.file.disk.content else []
  }

  /** Opening starts at offset 0 of the file then under the name; a missing file ends the read at once. */
  lemma ReadOpenEffect(st: State, c: nat, ok: bool)
    requires Enabled(st, ReadOpen(c, ok))
    ensures var st', x := Apply(st, ReadOpen(c, ok)), st.calls[c];
      && st'.file == st.file && st'.log == st.log && st'.subs == st.subs && st'.got == st.got && st'.notes == st.notes
      && st'.calls == st.calls[c := Call(x.w, x.since,
           if !ok then GivenUp
           else if st.file.disk == LimitedFile.Missing then Ended(st.kept, |st.log|, [])
           else Reading(|st.removed|, st.kept, []))]
  {
  }

  /**
   A block read at offset p of a file with content `content` leaves the reader with p plus at most n
   bytes of it, as many as there are, and with p at or beyond the end it ends the read. It changes
   nothing else.
   */
  lemma ReadBlockEffect(st: State, c: nat, n: nat, content: Bytes)
    requires Enabled(st, ReadBlock(c, n)) && Finds(st, st.calls[c].read.inode, content)
    ensures var st', x := Apply(st, ReadBlock(c, n)), st.calls[c];
      var r, p := x.read, |x.read.data|;
      && (p >= |content| ==> st' == st.(calls := st.calls[c := Call(x.w, x.since, Ended(st.kept, |st.log|, r.data))]))
      && (p < |content| && r.data == content[..p] ==>
            var q := if p + n < |content| then p + n else |content|;
            st' == st.(calls := st.calls[c := Call(x.w, x.since, Reading(r.inode, r.from, content[..q]))]))
  {
    var r, p := st.calls[c].read, |st.calls[c].read.data|;
    if p < |content| && r.data == content[..p] {
      var end := if p + n < |content| then p + n else |content|;
      assert content[..p] + content[p..end] == content[..end];
    }
  }

  /** A read error gives the history up; nothing else changes and nothing is read any more. */
  lemma ReadFailEffect(st: State, c: nat)
    requires Enabled(st, ReadFail(c))
    ensures var st', x := Apply(st, ReadFail(c)), st.calls[c];
      st' == st.(calls := st.calls[c := Call(x.w, x.since, GivenUp)])
  {
  }

  /** How many block reads it takes to see the end when `left` bytes are left: the last one reads nothing. */
  function Rounds(left: nat, n: nat): (k: nat)
    requires n > 0
    ensures 1 <= k <= left + 1
  {
    if left == 0 then 1 else 1 + Rounds(if n < left then left - n else 0, n)
  }

  function Blocks(c: nat, n: nat, k: nat): seq<Event> {
    if k == 0 then [] else [ReadBlock(c, n)] + Blocks(c, n, k - 1)
  }

  /** Call c with another history read, all else as it is. */
  function Having(st: State, c: nat, read: Read): State
    requires c in st.calls
  {
    st.(calls := st.calls[c := Call(st.calls[c].w, st.calls[c].since, read)])
  }

  lemma OneBlock(st: State, c: nat, n: nat, content: Bytes, inode: nat, from: nat, p: nat)
    requires c in st.calls && 0 < n <= BLOCK && Finds(st, inode, content) && p <= |content|
    ensures var q := if p + n < |content| then p + n else |content|;
      var st1, e := Having(st, c, Reading(inode, from, content[..p])), ReadBlock(c, n);
      Enabled(st1, e)
      && Apply(st1, e) == Having(st, c, if p < |content| then Reading(inode, from, content[..q])
                                        else Ended(st.kept, |st.log|, content))
  {
    ReadBlockEffect(Having(st, c, Reading(inode, from, content[..p])), c, n, content);
    assert p == |content| ==> content[..p] == content;
  }

  lemma FirstBlock(st: State, c: nat, n: nat, k: nat)
    requires Enabled(st, ReadBlock(c, n)) && Legal(Apply(st, ReadBlock(c, n)), Blocks(c, n, k))
    ensures Legal(st, Blocks(c, n, k + 1)) && Run(st, Blocks(c, n, k + 1)) == Run(Apply(st, ReadBlock(c, n)), Blocks(c, n, k))
  {
    assert Blocks(c, n, k + 1)[1..] == Blocks(c, n, k);
  }

  /**
   Left alone, reading ends: on a file that nobody changes meanwhile a reader at offset p sees the end
   after at most |content| - p + 1 reads, and then has the whole content.
   */
  lemma {:induction false} ReadingEnds(st: State, c: nat, n: nat, content: Bytes, inode: nat, from: nat, p: nat)
    requires c in st.calls && 0 < n <= BLOCK && Finds(st, inode, content) && p <= |content|
    ensures var st1, trace := Having(st, c, Reading(inode, from, content[..p])), Blocks(c, n, Rounds(|content| - p, n));
      Legal(st1, trace) && Run(st1, trace) == Having(st, c, Ended(st.kept, |st.log|, content))
    decreases |content| - p
  {
    var st1 := Having(st, c, Reading(inode, from, content[..p]));
    OneBlock(st, c, n, content, inode, from, p);
    if p < |content| {
      var q := if p + n < |content| then p + n else |content|;
      ReadingEnds(st, c, n, content, inode, from, q);
      FirstBlock(st1, c, n, Rounds(|content| - q, n));
    } else {
      FirstBlock(st1, c, n, 0);
    }
  }

  /** Write opens the file, creating it if it is missing; if that fails nothing has changed. */
  lemma WriteOpenEffect(st: State, r: Record, io: LimitedFile.IO)
    requires Enabled(st, WriteOpen(r, io))
    ensures var st' := Apply(st, WriteOpen(r, io));
      && st'.log == st.log && st'.kept == st.kept && st'.calls == st.calls && st'.subs == st.subs
      && st'.notes == st.notes && st'.got == st.got
      && (if st.file.isOpen || io.opens then st'.file.isOpen && st'.writing == Opened(r, io) else st' == st)
  {
  }

  /** The bytes taken are appended to the file and to the log; a complete record is to be notified, a partial one never. */
  lemma WriteBytesEffect(st: State)
    requires Enabled(st, WriteBytes)
    ensures var st', r, io := Apply(st, WriteBytes), st.writing.r, st.writing.io;
      var n := if io.accepted < |r| then io.accepted else |r|;
      && st'.writing == Written(io, |st.log|) && st'.kept == st.kept && st'.calls == st.calls && st'.subs == st.subs
      && st'.got == st.got
      && st'.file.disk == LimitedFile.Present((if st.file.disk.Present? then st.file.disk.content else []) + r[..n])
      && st'.log == (if n == 0 then st.log else st.log + [r[..n]])
      && st'.notes == (if n == 0 then st.notes else st.notes + [if n == |r| then Appended else Sending({})])
      && st'.partial == (if 0 < n < |r| then st.partial + {|st.log|} else st.partial)
  {
  }

  /** The file is emptied exactly if its recorded size is not below maxsize and Truncate works. */
  lemma WriteTruncateEffect(st: State)
    requires Enabled(st, WriteTruncate)
    ensures var st', io := Apply(st, WriteTruncate), st.writing.io;
      var empties := st.file.isOpen && st.file.filesize >= st.file.maxsize && io.truncates;
      && st'.writing == Idle && st'.log == st.log && st'.calls == st.calls && st'.subs == st.subs
      && st'.notes == st.notes && st'.got == st.got && st'.partial == st.partial
      && (empties ==> st'.file.disk == LimitedFile.Present([]) && st'.kept == |st.log|)
      && (!empties ==> st'.file == st.file && st'.kept == st.kept)
  {
  }

  /** notifyAll copies exactly the subscribers of that moment, and writes to each copied one. */
  lemma NotifyEffect(st: State, e: Event)
    requires Enabled(st, e) && (e.ReadTargets? || e.Notify?)
    ensures var st' := Apply(st, e);
      && st'.file == st.file && st'.log == st.log && st'.kept == st.kept && st'.calls == st.calls && st'.subs == st.subs
      && |st'.notes| == |st.notes| && (forall j | 0 <= j < |st.notes| && j != e.i :: st'.notes[j] == st.notes[j])
      && (e.ReadTargets? ==> st'.notes[e.i] == Sending(st.subs.Keys) && st'.got == st.got)
      && (e.Notify? ==>
            && st'.notes[e.i] == Sending(st.notes[e.i].targets - {e.w})
            && e.w in st'.got && st'.got[e.w] == (if e.w in st.got then st.got[e.w] else multiset{}) + multiset{e.i}
            && (forall v | v != e.w :: (v in st'.got <==> v in st.got) && (v in st.got ==> st'.got[v] == st.got[v])))
  {
  }

  /** Unsubscriber removes the one subscriber; its history read and the notifications in flight go on. */
  lemma UnregisterEffect(st: State, w: Subscriber)
    ensures var st' := Apply(st, Unregister(w));
      && w !in st'.subs
      && (forall v | v != w :: (v in st'.subs <==> v in st.subs) && (v in st.subs ==> st'.subs[v] == st.subs[v]))
      && st'.calls == st.calls && st'.notes == st.notes && st'.got == st.got && st'.file == st.file && st'.log == st.log
  {
  }

  /** Resizing, closing and removing the file. */
  lemma FileEffect(st: State, e: Event)
    requires Enabled(st, e) && (e.Resize? || e.IdleClose? || e.Remove?)
    ensures var st' := Apply(st, e);
      && st'.log == st.log && st'.calls == st.calls && st'.subs == st.subs && st'.notes == st.notes && st'.got == st.got
      && (e.Resize? && e.size <= 0 ==> st' == st)
      && (e.Resize? && e.size > 0 ==>
            && st'.file.maxsize == e.size && st'.file.isOpen == st.file.isOpen && st'.removed == st.removed
            && var empties := st.file.isOpen && st.file.filesize >= e.size && e.io.truncates;
               && st'.kept == (if empties then |st.log| else st.kept)
               && st'.file.disk == if empties then LimitedFile.Present([]) else st.file.disk)
      && (e.IdleClose? ==>
            !st'.file.isOpen && st'.file.disk == st.file.disk && st'.kept == st.kept && st'.removed == st.removed)
      && (e.Remove? ==>
            && !st'.file.isOpen
            && st'.file.disk == (if e.removes then LimitedFile.Missing else st.file.disk)
            && st'.kept == (if e.removes then |st.log| else st.kept)
            && st'.removed == if e.removes
                 then st.removed + [if st.file.disk.Present? then st.file.disk.content else []] else st.removed)
  {
  }

  // ---------------------------------------------------------------------------------------------
  // notifyAll run without interruption
  // ---------------------------------------------------------------------------------------------

  function Notifying(i: nat, order: seq<Subscriber>): seq<Event> {
    if order == [] then [] else [Notify(i, order[0])] + Notifying(i, order[1..])
  }

  ghost predicate Lists(order: seq<Subscriber>, all: set<Subscriber>) {
    && (forall w :: w in order <==> w in all)
    && (forall j, k | 0 <= j < k < |order| :: order[j] != order[k])
  }

  lemma ListsTail(order: seq<Subscriber>, all: set<Subscriber>)
    requires order != [] && Lists(order, all)
    ensures Lists(order[1..], all - {order[0]})
  {
    forall w ensures w in order[1..] <==> w in all - {order[0]} {
      assert w in order <==> w == order[0] || w in order[1..];
    }
  }

  lemma {:induction false} NotifyingRun(st: State, i: nat, order: seq<Subscriber>)
    requires i < |st.notes| && st.notes[i].Sending? && Lists(order, st.notes[i].targets)
    ensures Legal(st, Notifying(i, order))
    ensures Run(st, Notifying(i, order)).notes == st.notes[i := Sending({})]
    decreases |order|
  {
    if order == [] {
      assert st.notes[i].targets == {};
      assert st.notes[i := Sending({})] == st.notes;
    } else {
      var st1 := Apply(st, Notify(i, order[0]));
      assert Notifying(i, order)[1..] == Notifying(i, order[1..]);
      NotifyOne(st, i, order[0]);
      ListsTail(order, st.notes[i].targets);
      NotifyingRun(st1, i, order[1..]);
    }
  }

  lemma {:induction false} NotifyingSeen(st: State, i: nat, order: seq<Subscriber>, v: Subscriber)
    requires Legal(st, Notifying(i, order))
    requires forall j, k | 0 <= j < k < |order| :: order[j] != order[k]
    ensures Seen(Run(st, Notifying(i, order)), v) == if v in order then Seen(st, v) + multiset{i} else Seen(st, v)
    decreases |order|
  {
    if order != [] {
      assert Notifying(i, order)[1..] == Notifying(i, order[1..]);
      NotifyOne(st, i, order[0]);
      NotifyingSeen(Apply(st, Notify(i, order[0])), i, order[1..], v);
      assert v in order <==> v == order[0] || v in order[1..];
    }
  }

  /** notifyAll as a run of the concurrent model: it copies the subscribers and notifies each once, in any order. */
  lemma NotifyAllIsRun(st: State, i: nat, order: seq<Subscriber>, v: Subscriber)
    requires Enabled(st, ReadTargets(i))
    requires Lists(order, st.subs.Keys)
    ensures var trace := [ReadTargets(i)] + Notifying(i, order);
      && Legal(st, trace)
      && Run(st, trace).notes == st.notes[i := Sending({})]
      && Seen(Run(st, trace), v) == if v in st.subs then Seen(st, v) + multiset{i} else Seen(st, v)
  {
    var trace := [ReadTargets(i)] + Notifying(i, order);
    assert trace[1..] == Notifying(i, order);
    NotifyingRun(Apply(st, ReadTargets(i)), i, order);
    NotifyingSeen(Apply(st, ReadTargets(i)), i, order, v);
  }

  // ---------------------------------------------------------------------------------------------
  // The operations as they update the shared maps in place
  // ---------------------------------------------------------------------------------------------

  class PipeFS {
    var submap: map<string, set<Subscriber>>
    var inbox: map<Subscriber, seq<Record>>

    function Subs(name: string): set<Subscriber>
      reads this
    {
      if name in submap then submap[name] else {}
    }

    function Inbox(w: Subscriber): seq<Record>
      reads this
    {
      if w in inbox then inbox[w] else []
    }

    constructor ()
      ensures submap == map[] && inbox == map[]
    {
      submap, inbox := map[], map[];
    }

    /** The registering half of Subscriber; a nil writer is ignored. */
    method Register(w: Option<Subscriber>, name: string)
      modifies this`submap
      ensures forall n :: Subs(n) == if n == name && w.Some? then old(Subs(n)) + {w.value} else old(Subs(n))
    {
      if w == None {
        return;
      }
      var subs := {};
      if name in submap {
        subs := submap[name];
      }
      submap := submap[name := subs + {w.value}];
    }

    method Unsubscriber(w: Option<Subscriber>, name: string)
      modifies this`submap
      ensures forall n :: Subs(n) == if n == name && w.Some? then old(Subs(n)) - {w.value} else old(Subs(n))
    {
      if w == None {
        return;
      }
      if name in submap {
        submap := submap[name := submap[name] - {w.value}];
      }
    }

    /** notifyAll copies the subscribers of the name and writes the record once to each of them. */
    method NotifyAll(name: string, content: Record)
      modifies this`inbox
      ensures forall w :: Inbox(w) == old(Inbox(w)) + if w in Subs(name) then [content] else []
    {
      var subs := if name in submap then submap[name] else {};
      ghost var all := subs;
      while subs != {}
        invariant subs <= all == Subs(name)
        invariant forall w :: Inbox(w) == old(Inbox(w)) + if w in all - subs then [content] else []
        decreases |subs|
      {
        var sub :| sub in subs;
        var seen := if sub in inbox then inbox[sub] else [];
        inbox := inbox[sub := seen + [content]];
        subs := subs - {sub};
      }
    }
  }
}
