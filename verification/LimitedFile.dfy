/** The size-bounded log file of library/pipelog/file.go. */
module LimitedFile {

  type Bytes = seq<int>

  /** What the directory has under the file's name. */
  datatype Disk = Missing | Present(content: Bytes)

  /** How the file system answers during one operation; `accepted` bounds the bytes a write takes. */
  datatype IO = IO(opens: bool, stats: bool, accepted: nat, truncates: bool, seeks: bool)

  datatype FileState = FileState(maxsize: int, isOpen: bool, filesize: int, disk: Disk)

  function ContentOf(d: Disk): Bytes {
    if d.Present? then d.content else []
  }

  /** open: keep the open file, or open or create it and take its size from Stat. */
  function OpenStep(f: FileState, io: IO): FileState {
    if f.isOpen || !io.opens then f
    else f.(isOpen := true,
            disk := Present(ContentOf(f.disk)),
            filesize := if io.stats then |ContentOf(f.disk)| else f.filesize)
  }

  /** truncate: an open file whose recorded size is not below maxsize is emptied. */
  function TruncateStep(f: FileState, io: IO): FileState {
    if !f.isOpen || f.filesize < f.maxsize || !io.truncates then f
    else f.(disk := Present([]), filesize := if io.seeks then 0 else f.filesize)
  }

  function Taken(p: Bytes, io: IO): (n: nat)
    ensures n <= |p|
  {
    if io.accepted < |p| then io.accepted else |p|
  }

  /** The write itself: the file and its recorded size grow by the bytes taken. */
  function Extended(f: FileState, p: Bytes, io: IO): FileState {
    var n := Taken(p, io);
    f.(disk := Present(ContentOf(f.disk) + p[..n]), filesize := f.filesize + n)
  }

  function WriteStep(f: FileState, p: Bytes, io: IO): FileState {
    var f1 := OpenStep(f, io);
    if !f1.isOpen then f else TruncateStep(Extended(f1, p, io), io)
  }

  function ResizeStep(f: FileState, n: int, io: IO): FileState {
    if n <= 0 then f else TruncateStep(f.(maxsize := n), io)
  }

  function CloseStep(f: FileState): FileState {
    if f.isOpen then f.(isOpen := false, filesize := 0) else f
  }

  function RemoveStep(f: FileState, removes: bool): FileState {
    var f1 := CloseStep(f);
    if removes then f1.(disk := Missing) else f1
  }

  /** The operations that take the file lock; the idle timer runs Close at any moment. */
  datatype Op =
    | Write(p: Bytes, io: IO)
    | Resize(n: int, io: IO)
    | Close
    | Remove(removes: bool)

  function Step(f: FileState, op: Op): FileState {
    match op
    case Write(p, io) => WriteStep(f, p, io)
    case Resize(n, io) => ResizeStep(f, n, io)
    case Close => CloseStep(f)
    case Remove(removes) => RemoveStep(f, removes)
  }

  function Run(f: FileState, ops: seq<Op>): FileState
    decreases |ops|
  {
    if ops == [] then f else Run(Step(f, ops[0]), ops[1..])
  }

  /** newFile: closed, recorded size 0; the name may already exist on disk. */
  predicate Fresh(f: FileState) {
    !f.isOpen && f.filesize == 0
  }

  predicate Measured(ops: seq<Op>) {
    forall i | 0 <= i < |ops| :: ops[i].Write? || ops[i].Resize? ==> ops[i].io.stats && ops[i].io.seeks
  }

  predicate Truncating(ops: seq<Op>) {
    forall i | 0 <= i < |ops| :: ops[i].Write? || ops[i].Resize? ==> ops[i].io.truncates
  }

  /** An open file exists and its recorded size is its real size. */
  predicate SizeExact(f: FileState) {
    if f.isOpen then f.disk.Present? && f.filesize == |f.disk.content| else f.filesize == 0
  }

  predicate Bounded(f: FileState) {
    f.isOpen && f.maxsize > 0 ==> f.filesize < f.maxsize
  }

  /**
   Over every sequence of operations in which Stat and Seek never fail, the recorded size of an open
   file is its real size whenever the lock is free; and if Truncate never fails either, it is below a
   positive maxsize.
   */
  lemma {:induction false} RunKeepsSize(f: FileState, ops: seq<Op>)
    requires SizeExact(f) && Measured(ops)
    ensures SizeExact(Run(f, ops))
    ensures Bounded(f) && Truncating(ops) ==> Bounded(Run(f, ops))
    decreases |ops|
  {
    if ops != [] {
      var op := ops[0];
      assert SizeExact(Step(f, op));
      assert Bounded(f) && Truncating(ops) ==> Bounded(Step(f, op)) && Truncating(ops[1..]);
      assert Measured(ops[1..]);
      RunKeepsSize(Step(f, op), ops[1..]);
    }
  }

  /** So the content of an open file never reaches a positive maxsize. */
  lemma OpenContentBounded(f: FileState, ops: seq<Op>)
    requires Fresh(f) && Measured(ops) && Truncating(ops)
    ensures var g := Run(f, ops);
      g.isOpen && g.maxsize > 0 ==> g.disk.Present? && |g.disk.content| == g.filesize < g.maxsize
  {
    RunKeepsSize(f, ops);
  }

  /**
   A write after any such sequence leaves the old content plus the bytes taken, or nothing: nothing
   exactly when old content and bytes together are not below maxsize.
   */
  lemma WriteAppendsOrEmpties(f: FileState, ops: seq<Op>, p: Bytes, io: IO)
    requires Fresh(f) && Measured(ops) && io.stats && io.seeks && io.truncates
    ensures var g := Run(f, ops); var h := WriteStep(g, p, io);
      var all := ContentOf(g.disk) + p[..Taken(p, io)];
      if !g.isOpen && !io.opens then h == g
      else h.isOpen && h.disk == Present(if |all| < g.maxsize then all else [])
  {
    RunKeepsSize(f, ops);
  }

  /** Reopening keeps what is on disk, whatever closed the file before. */
  lemma CloseKeepsContent(f: FileState, p: Bytes, io: IO)
    requires SizeExact(f) && f.isOpen && io.opens && io.stats
    ensures CloseStep(f).disk == f.disk
    ensures WriteStep(CloseStep(f), p, io) == WriteStep(f, p, io)
  {
  }

  /** After a removal the next write starts from an empty file, whatever there was. */
  lemma RemovedFileStartsEmpty(f: FileState, p: Bytes, io: IO)
    requires io.opens && io.stats && io.truncates && io.seeks
    ensures var g := WriteStep(RemoveStep(f, true), p, io); var n := Taken(p, io);
      SizeExact(g) && g.isOpen && g.disk == Present(if n < f.maxsize then p[..n] else [])
  {
    assert [] + p[..Taken(p, io)] == p[..Taken(p, io)];
  }

  // ---------------------------------------------------------------------------------------------
  // When Stat, Truncate or Seek fail
  // ---------------------------------------------------------------------------------------------

  /** What an open adds to the history below: bytes of the file that the recorded size does not have. */
  function HiddenOpen(f: FileState, hidden: int, io: IO): int {
    if f.isOpen || !io.opens then hidden else if io.stats then 0 else |ContentOf(f.disk)|
  }

  /** Truncating leaves nothing hidden, unless Seek fails: then the recorded size keeps what is gone. */
  function HiddenTruncate(f: FileState, hidden: int, io: IO): int {
    if !f.isOpen || f.filesize < f.maxsize || !io.truncates then hidden else if io.seeks then 0 else -f.filesize
  }

  /** History: by how much the open file is longer than its recorded size. */
  function Hidden(f: FileState, hidden: int, op: Op): int {
    match op
    case Write(p, io) =>
      var f1 := OpenStep(f, io);
      if !f1.isOpen then hidden
      else HiddenTruncate(f1.(filesize := f1.filesize + Taken(p, io)), HiddenOpen(f, hidden, io), io)
    case Resize(n, io) => if n <= 0 then hidden else HiddenTruncate(f.(maxsize := n), hidden, io)
    case Close => 0
    case Remove(_) => 0
  }

  function HiddenRun(f: FileState, hidden: int, ops: seq<Op>): int
    decreases |ops|
  {
    if ops == [] then hidden else HiddenRun(Step(f, ops[0]), Hidden(f, hidden, ops[0]), ops[1..])
  }

  predicate HiddenExact(f: FileState, hidden: int) {
    if f.isOpen then f.disk.Present? && |f.disk.content| == f.filesize + hidden else f.filesize == hidden == 0
  }

  lemma HiddenStep(f: FileState, hidden: int, op: Op)
    requires HiddenExact(f, hidden)
    ensures HiddenExact(Step(f, op), Hidden(f, hidden, op))
  {
  }

  /** On every run, whatever fails, the recorded size and the history together give the real size. */
  lemma {:induction false} HiddenIsExact(f: FileState, hidden: int, ops: seq<Op>)
    requires HiddenExact(f, hidden)
    ensures HiddenExact(Run(f, ops), HiddenRun(f, hidden, ops))
    decreases |ops|
  {
    if ops != [] {
      HiddenStep(f, hidden, ops[0]);
      HiddenIsExact(Step(f, ops[0]), Hidden(f, hidden, ops[0]), ops[1..]);
    }
  }

  /** The bytes an operation brings to the file before it truncates. */
  function Brought(op: Op): nat {
    if op.Write? then Taken(op.p, op.io) else 0
  }

  /**
   Exactly when the bound fails: after a write or an effective resize on any run, whatever failed
   before, an open file has at least maxsize bytes if and only if old content and new bytes together
   reach maxsize and either Truncate fails now, or the recorded size does not reach it because that
   many bytes are hidden from it.
   */
  lemma BoundFailsIff(f: FileState, ops: seq<Op>, op: Op)
    requires Fresh(f) && (op.Write? || (op.Resize? && op.n > 0))
    requires var h := Step(Run(f, ops), op); h.isOpen && h.maxsize > 0
    ensures var g := Run(f, ops); var h := Step(g, op);
      var total := |ContentOf(g.disk)| + Brought(op);
      var hidden := HiddenOpen(g, HiddenRun(f, 0, ops), op.io);
      |ContentOf(h.disk)| >= h.maxsize <==> h.maxsize <= total && (!op.io.truncates || total < h.maxsize + hidden)
  {
    HiddenIsExact(f, 0, ops);
  }

  /**
   When Stat fails on opening, the recorded size is right if and only if the file was empty; and the
   first write then leaves the file below a positive maxsize if and only if its bytes alone reach
   maxsize, so that it is emptied, or old content and bytes together do not.
   */
  lemma UnmeasuredOpenIff(f: FileState, p: Bytes, io: IO)
    requires Fresh(f) && io.opens && !io.stats && io.truncates && io.seeks && f.maxsize > 0
    ensures SizeExact(OpenStep(f, io)) <==> ContentOf(f.disk) == []
    ensures var g := WriteStep(f, p, io); var n := Taken(p, io);
      |ContentOf(g.disk)| < f.maxsize <==> n >= f.maxsize || |ContentOf(f.disk)| + n < f.maxsize
  {
    BoundFailsIff(f, [], Write(p, io));
  }

  lemma UnmeasuredFileOutgrows()
    ensures exists f: FileState, p: Bytes, io: IO ::
      var g := WriteStep(f, p, io);
      Fresh(f) && !io.stats && io.truncates && io.seeks && g.maxsize > 0 && |ContentOf(g.disk)| > g.maxsize
  {
    var f := FileState(3, false, 0, Present([1, 2]));
    var io := IO(true, false, 2, true, true);
    var g := WriteStep(f, [7, 8], io);
    assert g.disk == Present([1, 2] + [7, 8]);
    assert Fresh(f) && !io.stats && io.truncates && io.seeks && g.maxsize > 0 && |ContentOf(g.disk)| > g.maxsize;
  }

  // ---------------------------------------------------------------------------------------------
  // What each operation does, written out
  // ---------------------------------------------------------------------------------------------

  /**
   A write opens a closed file, measuring it if Stat works, appends the bytes the file system takes, and
   then empties the file if the recorded size is not below maxsize; a size that Seek keeps from being
   reset stays recorded.
   */
  lemma WriteEffect(f: FileState, p: Bytes, io: IO)
    ensures var g := Step(f, Write(p, io));
      var held := if f.disk.Present? then f.disk.content else [];
      var n := if io.accepted < |p| then io.accepted else |p|;
      var size := (if f.isOpen || !io.stats then f.filesize else |held|) + n;
      if !f.isOpen && !io.opens then g == f
      else if size >= f.maxsize && io.truncates then
        g == FileState(f.maxsize, true, if io.seeks then 0 else size, Present([]))
      else g == FileState(f.maxsize, true, size, Present(held + p[..n]))
  {
  }

  /** A positive size takes effect at once, growing or shrinking; an open file that is not below it is emptied. */
  lemma ResizeEffect(f: FileState, n: int, io: IO)
    ensures var g := Step(f, Resize(n, io));
      if n <= 0 then g == f
      else if f.isOpen && f.filesize >= n && io.truncates then
        g == FileState(n, true, if io.seeks then 0 else f.filesize, Present([]))
      else g == FileState(n, f.isOpen, f.filesize, f.disk)
  {
  }

  /** Closing forgets the recorded size and keeps what is on disk; removing takes the name as well, if it works. */
  lemma CloseAndRemoveEffect(f: FileState, removes: bool)
    ensures Step(f, Close) == FileState(f.maxsize, false, if f.isOpen then 0 else f.filesize, f.disk)
    ensures Step(f, Remove(removes)) ==
      FileState(f.maxsize, false, if f.isOpen then 0 else f.filesize, if removes then Missing else f.disk)
  {
  }

  // ---------------------------------------------------------------------------------------------
  // The operations as they update the file in place
  // ---------------------------------------------------------------------------------------------

  class File {
    var maxsize: int
    var isOpen: bool
    var filesize: int
    var disk: Disk

    function View(): FileState
      reads this
    {
      FileState(maxsize, isOpen, filesize, disk)
    }

    /** An open file exists on disk. */
    predicate Valid()
      reads this
    {
      isOpen ==> disk.Present?
    }

    constructor (maxsize: int, disk: Disk)
      ensures Valid()
      ensures View() == FileState(maxsize, false, 0, disk) && Fresh(View())
    {
      this.maxsize, isOpen, filesize, this.disk := maxsize, false, 0, disk;
    }

    method Open(io: IO) returns (ok: bool)
      requires Valid()
      modifies this
      ensures Valid()
      ensures View() == OpenStep(old(View()), io)
      ensures ok <==> isOpen
    {
      if isOpen {
        return true;
      }
      if !io.opens {
        return false;
      }
      if disk == Missing {
        disk := Present([]);
      }
      if io.stats {
        filesize := |disk.content|;
      }
      isOpen := true;
      ok := true;
    }

    method Truncate(io: IO)
      requires Valid()
      modifies this
      ensures Valid()
      ensures View() == TruncateStep(old(View()), io)
    {
      if !isOpen || filesize < maxsize {
        return;
      }
      if io.truncates {
        disk := Present([]);
        if io.seeks {
          filesize := 0;
        }
      }
    }

    /** Write: n bytes taken; subscribers are notified only of a complete and non-empty write. */
    method Write(p: Bytes, io: IO) returns (n: nat, ok: bool, notified: bool)
      requires Valid()
      modifies this
      ensures Valid()
      ensures View() == Step(old(View()), Op.Write(p, io))
      ensures n == if isOpen then Taken(p, io) else 0
      ensures ok <==> isOpen && n == |p|
      ensures notified <==> ok && p != []
    {
      ok := Open(io);
      if !ok {
        return 0, false, false;
      }
      n := if io.accepted < |p| then io.accepted else |p|;
      disk := Present(disk.content + p[..n]);
      filesize := filesize + n;
      Truncate(io);
      ok := n == |p|;
      notified := ok && n > 0;
    }

    method Resize(n: int, io: IO)
      requires Valid()
      modifies this
      ensures Valid()
      ensures View() == Step(old(View()), Op.Resize(n, io))
    {
      if n <= 0 {
        return;
      }
      maxsize := n;
      Truncate(io);
    }

    method Close()
      requires Valid()
      modifies this
      ensures Valid() && !isOpen
      ensures View() == Step(old(View()), Op.Close)
    {
      if isOpen {
        isOpen, filesize := false, 0;
      }
    }

    method Remove(removes: bool)
      requires Valid()
      modifies this
      ensures Valid()
      ensures View() == Step(old(View()), Op.Remove(removes))
    {
      Close();
      if removes {
        disk := Missing;
      }
    }
  }
}
