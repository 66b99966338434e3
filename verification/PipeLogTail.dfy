/** The history read of library/pipelog/fs.go: `tailN`, `tailAll` and `readN`. */
module PipeLogTail {

  newtype Byte = b: int | 0 <= b < 256

  const LF: Byte := 10
  const CR: Byte := 13

  // ---------------------------------------------------------------------------------------------
  // Lines, as bytes.Lines defines them: a line ends after its LF, the last one may have none
  // ---------------------------------------------------------------------------------------------

  function LineLength(s: seq<Byte>): (k: nat)
    requires s != []
    ensures 1 <= k <= |s|
    ensures forall i | 0 <= i < k - 1 :: s[i] != LF
    ensures s[k - 1] == LF || k == |s|
  {
    if s[0] == LF || |s| == 1 then 1 else 1 + LineLength(s[1..])
  }

  function Lines(s: seq<Byte>): (r: seq<seq<Byte>>)
    ensures |r| <= |s| && (s != [] ==> r != [])
    decreases |s|
  {
    if s == [] then [] else [s[..LineLength(s)]] + Lines(s[LineLength(s)..])
  }

  function LastN<T>(s: seq<T>, n: int): seq<T> {
    if n <= 0 then [] else if |s| > n then s[|s| - n..] else s
  }

  /** The last min(n, |s|) elements, in order; none if n is negative. */
  lemma LastNIs<T>(s: seq<T>, n: int)
    ensures var k := if n <= 0 then 0 else if n < |s| then n else |s|;
      |LastN(s, n)| == k && s == s[..|s| - k] + LastN(s, n)
  {
  }

  function Concat(parts: seq<seq<Byte>>): seq<Byte> {
    if parts == [] then [] else parts[0] + Concat(parts[1..])
  }

  lemma ConcatCons(p: seq<Byte>, parts: seq<seq<Byte>>)
    ensures Concat([p] + parts) == p + Concat(parts)
  {
    assert ([p] + parts)[1..] == parts;
  }

  lemma {:induction false} ConcatSnoc(parts: seq<seq<Byte>>, p: seq<Byte>)
    ensures Concat(parts + [p]) == Concat(parts) + p
    decreases |parts|
  {
    if parts == [] {
      assert parts + [p] == [p] && [p][1..] == [];
    } else {
      assert (parts + [p])[1..] == parts[1..] + [p];
      ConcatSnoc(parts[1..], p);
    }
  }

  lemma {:induction false} LineLengthUnique(s: seq<Byte>, k: nat)
    requires 1 <= k <= |s|
    requires forall i | 0 <= i < k - 1 :: s[i] != LF
    requires s[k - 1] == LF || k == |s|
    ensures LineLength(s) == k
  {
    if s[0] != LF && |s| > 1 {
      LineLengthUnique(s[1..], k - 1);
    }
  }

  lemma FirstLine(s: seq<Byte>, k: nat, rest: seq<Byte>)
    requires s != [] && k == LineLength(s) && rest == s[k..]
    ensures Lines(s) == [s[..k]] + Lines(rest)
  {
  }

  lemma HeadConcat(s: seq<Byte>, head: seq<Byte>, rest: seq<Byte>, lines: seq<seq<Byte>>)
    requires s == head + rest && Concat(lines) == rest
    ensures Concat([head] + lines) == s
  {
    ConcatCons(head, lines);
  }

  /** Cutting into lines loses nothing. */
  lemma {:induction false} LinesConcat(s: seq<Byte>)
    ensures Concat(Lines(s)) == s
    decreases |s|
  {
    if s != [] {
      var k := LineLength(s);
      var rest := s[k..];
      LinesConcat(rest);
      FirstLine(s, k, rest);
      HeadConcat(s, s[..k], rest, Lines(rest));
    }
  }

  ghost predicate OneLine(line: seq<Byte>, last: bool) {
    && line != []
    && (forall i | 0 <= i < |line| - 1 :: line[i] != LF)
    && (last || line[|line| - 1] == LF)
  }

  /** Every line ends at its only LF; only the last one may have none. */
  lemma {:induction false} LinesShape(s: seq<Byte>, i: nat)
    requires i < |Lines(s)|
    ensures OneLine(Lines(s)[i], i == |Lines(s)| - 1)
    ensures forall j | 0 <= j < |Lines(s)[i]| - 1 :: Lines(s)[i][j] != LF
    decreases |s|
  {
    var k := LineLength(s);
    if i == 0 {
      assert forall j | 0 <= j < k :: s[..k][j] == s[j];
      assert k == |s| <==> s[k..] == [];
    } else {
      assert Lines(s)[i] == Lines(s[k..])[i - 1];
      LinesShape(s[k..], i - 1);
    }
  }

  lemma FirstLineGrows(x: seq<Byte>, y: seq<Byte>)
    requires y != [] && LineLength(x + y) > |x|
    ensures LineLength(x + y) == |x| + LineLength(y)
  {
    var s := x + y;
    assert forall i | 0 <= i < |x| :: x[i] == s[i];
    assert forall i | 0 <= i < |y| :: y[i] == s[|x| + i];
    LineLengthUnique(s, |x| + LineLength(y));
  }

  /**
   Putting bytes in front of y can only change y's first line: all later lines of y are the last
   lines of x + y.
   */
  lemma {:induction false} PrependKeepsLaterLines(x: seq<Byte>, y: seq<Byte>)
    requires y != []
    ensures |Lines(x + y)| >= |Lines(y)|
    ensures Lines(x + y)[|Lines(x + y)| - (|Lines(y)| - 1)..] == Lines(y)[1..]
    decreases |x|
  {
    var s := x + y;
    var k := LineLength(s);
    if x == [] {
      assert s == y;
    } else if k <= |x| {
      assert s[k..] == x[k..] + y;
      PrependKeepsLaterLines(x[k..], y);
      FirstLine(s, k, x[k..] + y);
    } else {
      var l := LineLength(y);
      FirstLineGrows(x, y);
      assert s[k..] == y[l..];
      FirstLine(s, k, y[l..]);
      FirstLine(y, l, y[l..]);
    }
  }

  /** The writer handed to a subscriber: it accepts `room` more writes and then fails. */
  class Writer {
    var got: seq<seq<Byte>>
    var room: nat

    constructor (room: nat)
      ensures got == [] && this.room == room
    {
      got, this.room := [], room;
    }

    method Write(p: seq<Byte>) returns (ok: bool)
      modifies this
      ensures ok == (old(room) > 0)
      ensures got == if ok then old(got) + [p] else old(got)
      ensures room == if ok then old(room) - 1 else 0
    {
      ok := room > 0;
      if ok {
        got, room := got + [p], room - 1;
      }
    }
  }

  /** The end of the line that starts at `at`. */
  method LineEnd(buffer: seq<Byte>, at: nat) returns (end: nat)
    requires at < |buffer|
    ensures end == at + LineLength(buffer[at..])
  {
    end := at;
    while end < |buffer| && buffer[end] != LF
      invariant at <= end <= |buffer|
      invariant forall i | at <= i < end :: buffer[i] != LF
    {
      end := end + 1;
    }
    if end < |buffer| {
      end := end + 1;
    }
    LineLengthUnique(buffer[at..], end - at);
  }

  lemma MoveOne<T>(done: seq<T>, x: T, rest: seq<T>)
    ensures done + ([x] + rest) == (done + [x]) + rest
  {
  }

  lemma NextLine(buffer: seq<Byte>, at: nat, end: nat, done: seq<seq<Byte>>)
    requires at < |buffer| && end == at + LineLength(buffer[at..])
    ensures done + Lines(buffer[at..]) == (done + [buffer[at..end]]) + Lines(buffer[end..])
  {
    assert buffer[at..][end - at..] == buffer[end..];
    FirstLine(buffer[at..], end - at, buffer[end..]);
    assert buffer[at..][..end - at] == buffer[at..end];
    MoveOne(done, buffer[at..end], Lines(buffer[end..]));
  }

  /** bytes.Lines */
  method SplitLines(buffer: seq<Byte>) returns (lines: seq<seq<Byte>>)
    ensures lines == Lines(buffer)
  {
    lines := [];
    var at := 0;
    assert buffer[at..] == buffer;
    while at < |buffer|
      invariant 0 <= at <= |buffer|
      invariant lines + Lines(buffer[at..]) == Lines(buffer)
    {
      var end := LineEnd(buffer, at);
      NextLine(buffer, at, end, lines);
      lines := lines + [buffer[at..end]];
      at := end;
    }
    assert buffer[at..] == [];
  }

  method WriteAll(w: Writer, lines: seq<seq<Byte>>) returns (ok: bool)
    modifies w
    ensures ok == (|lines| <= old(w.room))
    ensures !ok ==> w.room == 0
    ensures w.got == old(w.got) + (if ok then lines else lines[..old(w.room)])
  {
    ok := true;
    var i := 0;
    while i < |lines|
      invariant 0 <= i <= |lines| && i + w.room == old(w.room)
      invariant w.got == old(w.got) + lines[..i]
      invariant ok
    {
      ok := w.Write(lines[i]);
      if !ok {
        return;
      }
      i := i + 1;
    }
    assert lines[..i] == lines;
  }

  const BLOCK := 4096

  lemma LastLinesAgree(all: seq<seq<Byte>>, tail: seq<seq<Byte>>, n: int)
    requires 1 <= |tail| <= |all| && |tail| > n
    requires all[|all| - (|tail| - 1)..] == tail[1..]
    ensures LastN(all, n) == LastN(tail, n)
  {
    if n > 0 {
      var a, t := all[|all| - (|tail| - 1)..], tail[1..];
      assert all[|all| - n..] == a[|a| - n..];
      assert tail[|tail| - n..] == t[|t| - n..];
    }
  }

  /** A suffix that already has more than n lines has the same last n lines as the whole file. */
  lemma SuffixSuffices(file: seq<Byte>, pos: nat, n: int)
    requires pos < |file| && |Lines(file[pos..])| > n
    ensures LastN(Lines(file), n) == LastN(Lines(file[pos..]), n)
  {
    assert file == file[..pos] + file[pos..];
    PrependKeepsLaterLines(file[..pos], file[pos..]);
    LastLinesAgree(Lines(file), Lines(file[pos..]), n);
  }

  /** What the loop of tailN has when it stops is enough. */
  lemma EnoughRead(file: seq<Byte>, pos: nat, n: int)
    requires pos <= |file| && (pos == 0 || |Lines(file[pos..])| > n) && (n < 0 ==> pos == |file|)
    ensures var lines := Lines(file[pos..]);
      LastN(Lines(file), n) == if n >= 0 && |lines| > n then lines[|lines| - n..] else lines
  {
    if pos == 0 {
      assert file[pos..] == file;
    } else if pos < |file| {
      SuffixSuffices(file, pos, n);
    }
  }

  /**
   File.ReadAt into a fresh buffer of n bytes, end-of-file errors ignored: bytes beyond the end of the
   file stay zero.
   */
  function ReadAt(content: seq<Byte>, pos: nat, n: nat): (chunk: seq<Byte>)
    ensures |chunk| == n
    ensures forall i | 0 <= i < n :: chunk[i] == if pos + i < |content| then content[pos + i] else 0
  {
    if pos + n <= |content| then content[pos..pos + n]
    else (if pos < |content| then content[pos..] else []) + seq(if pos < |content| then pos + n - |content| else n, _ => 0)
  }

  /** One block towards the front of what was the file's content at Stat, put before what has been read. */
  method ReadBlock(now: seq<Byte>, pos: nat, buffer: seq<Byte>) returns (pos': nat, buffer': seq<Byte>)
    requires pos > 0
    ensures pos' == (if pos < BLOCK then 0 else pos - BLOCK)
    ensures buffer' == ReadAt(now, pos', pos - pos') + buffer
    ensures forall file: seq<Byte> | pos <= |file| && file <= now && buffer == file[pos..] :: buffer' == file[pos'..]
  {
    var readSize := BLOCK;
    if pos < readSize {
      readSize := pos;
    }
    pos' := pos - readSize;
    var chunk := ReadAt(now, pos', readSize);
    buffer' := chunk + buffer;
    forall file: seq<Byte> | pos <= |file| && file <= now && buffer == file[pos..] ensures buffer' == file[pos'..] {
      assert now[pos'..pos] == file[pos'..pos];
      assert file[pos'..pos] + file[pos..] == file[pos'..];
    }
  }

  /** As long as the file is only appended to, each of its later contents begins with the one at Stat. */
  ghost predicate OnlyGrows(file: seq<Byte>, later: nat -> seq<Byte>) {
    forall k: nat :: file <= later(k)
  }

  /**
   The reading half of tailN: `file` is the content at Stat, `later(k)` the content when the k-th block
   is read. Blocks are read backwards and the growing suffix is split again each time, yet on a file
   that is only appended to meanwhile the result is exactly the last n lines of the content at Stat,
   in order.
   */
  method ReadTail(file: seq<Byte>, later: nat -> seq<Byte>, n: int) returns (lines: seq<seq<Byte>>)
    ensures OnlyGrows(file, later) ==> lines == LastN(Lines(file), n)
  {
    var pos, k := |file|, 0;
    var buffer: seq<Byte> := [];
    lines := [];
    while pos > 0 && |lines| <= n
      invariant 0 <= pos <= |file|
      invariant OnlyGrows(file, later) ==> buffer == file[pos..]
      invariant lines == Lines(buffer)
      invariant n < 0 ==> pos == |file| && buffer == []
      decreases pos
    {
      assert OnlyGrows(file, later) ==> file <= later(k);
      pos, buffer := ReadBlock(later(k), pos, buffer);
      lines := SplitLines(buffer);
      k := k + 1;
    }
    if OnlyGrows(file, later) {
      EnoughRead(file, pos, n);
    }
    if n >= 0 && |lines| > n {
      lines := lines[|lines| - n..];
    }
  }

  /** tailN writes those lines one by one, up to the first write that fails. */
  method TailN(w: Writer, file: seq<Byte>, later: nat -> seq<Byte>, n: int) returns (ok: bool)
    modifies w
    ensures OnlyGrows(file, later) ==>
      var want := LastN(Lines(file), n);
      && ok == (|want| <= old(w.room))
      && w.got == old(w.got) + (if ok then want else want[..old(w.room)])
    ensures old(w.got) <= w.got && (!ok ==> w.room == 0)
  {
    var lines := ReadTail(file, later, n);
    ok := WriteAll(w, lines);
  }

  // ---------------------------------------------------------------------------------------------
  // tailAll: bufio.Reader.ReadLine with its buffer of 4096 bytes
  // ---------------------------------------------------------------------------------------------

  /** What is left of s when every LF, and the CR right before it, is dropped. */
  function Strip(s: seq<Byte>): seq<Byte> {
    if s == [] then []
    else if s[0] == LF then Strip(s[1..])
    else if s[0] == CR && |s| > 1 && s[1] == LF then Strip(s[2..])
    else [s[0]] + Strip(s[1..])
  }

  lemma {:induction false} StripSplit(a: seq<Byte>, c: seq<Byte>)
    requires a == [] || c == [] || a[|a| - 1] != CR || c[0] != LF
    ensures Strip(a + c) == Strip(a) + Strip(c)
    decreases |a|
  {
    if a == [] {
      assert a + c == c;
    } else if c == [] {
      assert a + c == a;
    } else if a[0] == CR && |a| > 1 && a[1] == LF {
      assert (a + c)[2..] == a[2..] + c;
      StripSplit(a[2..], c);
    } else {
      assert (a + c)[1..] == a[1..] + c;
      assert |a| > 1 ==> (a + c)[1] == a[1];
      assert |a| == 1 ==> (a + c)[1] == c[0];
      StripSplit(a[1..], c);
    }
  }

  lemma {:induction false} StripPlain(a: seq<Byte>)
    requires LF !in a
    ensures Strip(a) == a
  {
    if a != [] {
      StripPlain(a[1..]);
    }
  }

  /** A complete line contributes itself without LF, and without the CR before it. */
  lemma StripLine(line: seq<Byte>, end: seq<Byte>, rest: seq<Byte>)
    requires LF !in line
    requires end == [CR, LF] || (end == [LF] && (line == [] || line[|line| - 1] != CR))
    ensures Strip(line + end + rest) == line + Strip(rest)
  {
    StripSplit(line + end, rest);
    StripSplit(line, end);
    StripPlain(line);
    assert [CR, LF][2..] == [] && [LF][1..] == [];
    assert Strip(end) == [];
  }

  /** A piece without LF contributes itself, unless it separates a CR from its LF. */
  lemma StripPiece(line: seq<Byte>, rest: seq<Byte>)
    requires LF !in line
    requires line == [] || rest == [] || line[|line| - 1] != CR || rest[0] != LF
    ensures Strip(line + rest) == line + Strip(rest)
  {
    StripSplit(line, rest);
    StripPlain(line);
  }

  lemma StripFirstLine(rest: seq<Byte>, k: nat, drop: nat)
    requires rest != [] && k == LineLength(rest) && rest[k - 1] == LF
    requires drop == if k > 1 && rest[k - 2] == CR then 2 else 1
    ensures Strip(rest) == rest[..k - drop] + Strip(rest[k..])
  {
    var line, end := rest[..k - drop], rest[k - drop..k];
    assert rest == line + end + rest[k..];
    StripLine(line, end, rest[k..]);
  }

  lemma StripFirstPiece(rest: seq<Byte>, used: nat)
    requires 1 <= used <= |rest| && (forall i | 0 <= i < used :: rest[i] != LF)
    requires used < |rest| ==> rest[used - 1] != CR || rest[used] != LF
    ensures Strip(rest) == rest[..used] + Strip(rest[used..])
  {
    assert rest == rest[..used] + rest[used..];
    StripPiece(rest[..used], rest[used..]);
  }

  /**
   One call of ReadLine at the head of a non-empty rest: the line without its end, and how many
   bytes were consumed. A line that does not fit the buffer comes in pieces, never cut between CR
   and LF.
   */
  method ReadLine(rest: seq<Byte>) returns (line: seq<Byte>, used: nat)
    requires rest != []
    ensures 1 <= used <= |rest|
    ensures Strip(rest) == line + Strip(rest[used..])
    ensures var k := LineLength(rest);
      used == if k <= 4096 && rest[k - 1] == LF then k
              else if |rest| < 4096 then |rest|
              else if rest[4095] == CR then 4095 else 4096
  {
    assert rest[0..] == rest;
    var k := LineEnd(rest, 0);
    if k <= BLOCK && rest[k - 1] == LF {
      used := k;
      var drop := 1;
      if k > 1 && rest[k - 2] == CR {
        drop := 2;
      }
      line := rest[..k - drop];
      StripFirstLine(rest, k, drop);
    } else if |rest| >= BLOCK {
      used := BLOCK;
      if rest[BLOCK - 1] == CR {
        used := BLOCK - 1;
      }
      line := rest[..used];
      StripFirstPiece(rest, used);
    } else {
      line, used := rest, |rest|;
      StripFirstPiece(rest, used);
    }
  }

  lemma Progress(done: seq<seq<Byte>>, line: seq<Byte>, rest: seq<Byte>)
    ensures Concat(done + [line]) + rest == Concat(done) + (line + rest)
  {
    ConcatSnoc(done, line);
  }

  /** One round of tailAll: read a line and write it. `done` are the lines written before, `all` what is to be written. */
  method CopyLine(w: Writer, rest: seq<Byte>, ghost done: seq<seq<Byte>>, ghost all: seq<Byte>)
    returns (ok: bool, used: nat, ghost line: seq<Byte>)
    requires rest != [] && Concat(done) + Strip(rest) == all
    modifies w
    ensures 1 <= used <= |rest|
    ensures ok ==> w.got == old(w.got) + [line] && Concat(done + [line]) + Strip(rest[used..]) == all
    ensures !ok ==> w.got == old(w.got) && w.room == 0
  {
    var l;
    l, used := ReadLine(rest);
    ok := w.Write(l);
    line := l;
    Progress(done, l, Strip(rest[used..]));
  }

  /** tailAll writes the whole file without its line ends, wherever the buffer cuts it. */
  method TailAll(w: Writer, file: seq<Byte>) returns (ok: bool, ghost done: seq<seq<Byte>>)
    modifies w
    ensures w.got == old(w.got) + done
    ensures ok ==> Concat(done) == Strip(file)
    ensures !ok ==> w.room == 0 && Concat(done) <= Strip(file)
  {
    var rest := file;
    done := [];
    ghost var all := Strip(file);
    while rest != []
      invariant w.got == old(w.got) + done
      invariant Concat(done) + Strip(rest) == all
      decreases |rest|
    {
      var used;
      ghost var line;
      ok, used, line := CopyLine(w, rest, done, all);
      if !ok {
        return;
      }
      done := done + [line];
      rest := rest[used..];
    }
    ok := true;
  }

  /** A line without its LF, and without the CR before that; a last line without LF as it is. */
  function Trimmed(line: seq<Byte>): seq<Byte> {
    var n := |line|;
    if n >= 2 && line[n - 1] == LF && line[n - 2] == CR then line[..n - 2]
    else if n >= 1 && line[n - 1] == LF then line[..n - 1]
    else line
  }

  function TrimmedAll(lines: seq<seq<Byte>>): seq<Byte> {
    if lines == [] then [] else Trimmed(lines[0]) + TrimmedAll(lines[1..])
  }

  lemma StripOneLine(line: seq<Byte>, rest: seq<Byte>)
    requires line != [] && LF !in line[..|line| - 1] && (rest == [] || line[|line| - 1] == LF)
    ensures Strip(line + rest) == Trimmed(line) + Strip(rest)
  {
    var n := |line|;
    if line[n - 1] == LF {
      var keep := if n >= 2 && line[n - 2] == CR then n - 2 else n - 1;
      assert line == line[..keep] + line[keep..];
      assert forall i | 0 <= i < keep :: line[i] == line[..n - 1][i];
      StripLine(line[..keep], line[keep..], rest);
    } else {
      assert line == line[..n - 1] + [line[n - 1]];
      StripPlain(line);
      assert line + rest == line;
    }
  }

  /** What tailAll writes is the file's lines, each without its end. */
  lemma {:induction false} StripIsTrimmedLines(s: seq<Byte>)
    ensures Strip(s) == TrimmedAll(Lines(s))
    decreases |s|
  {
    if s != [] {
      var k := LineLength(s);
      var line, rest := s[..k], s[k..];
      assert s == line + rest;
      assert forall i | 0 <= i < k - 1 :: line[..k - 1][i] == s[i];
      StripOneLine(line, rest);
      StripIsTrimmedLines(rest);
      FirstLine(s, k, rest);
      TrimmedCons(line, Lines(rest));
    }
  }

  lemma TrimmedCons(line: seq<Byte>, lines: seq<seq<Byte>>)
    ensures TrimmedAll([line] + lines) == Trimmed(line) + TrimmedAll(lines)
  {
    assert ([line] + lines)[1..] == lines;
  }

  lemma {:induction false} StripShorter(s: seq<Byte>)
    ensures |Strip(s)| <= |s| && (LF in s ==> |Strip(s)| < |s|)
  {
    if s != [] && s[0] != LF {
      if s[0] == CR && |s| > 1 && s[1] == LF {
        StripShorter(s[2..]);
      } else {
        assert LF in s ==> LF in s[1..];
        StripShorter(s[1..]);
      }
    } else if s != [] {
      StripShorter(s[1..]);
    }
  }

  /** The full read reproduces the file if and only if the file has no line end at all. */
  lemma StripKeepsAllIff(file: seq<Byte>)
    ensures Strip(file) == file <==> LF !in file
  {
    StripShorter(file);
    if LF !in file {
      StripPlain(file);
    }
  }

  /**
   readN: n = 0 reads nothing, n > 0 the last n lines, n < 0 everything; if the file does not open it
   writes nothing, and if a write fails it has written the beginning of that. `opens` is whether the
   file opens, `file` its content then, `later` as for ReadTail.
   */
  method ReadN(w: Writer, opens: bool, file: seq<Byte>, later: nat -> seq<Byte>, n: int) returns (ok: bool)
    modifies w
    ensures old(w.got) <= w.got
    ensures n == 0 || !opens ==> w.got == old(w.got) && (ok <==> n == 0)
    ensures var done := w.got[|old(w.got)|..];
      && (n > 0 && opens && OnlyGrows(file, later) ==>
            if ok then done == LastN(Lines(file), n) else done <= LastN(Lines(file), n))
      && (n < 0 && opens ==> if ok then Concat(done) == Strip(file) else Concat(done) <= Strip(file))
    ensures !ok && opens ==> w.room == 0
  {
    if n == 0 {
      return true;
    }
    if !opens {
      return false;
    }
    if n > 0 {
      ok := TailN(w, file, later, n);
    } else {
      ghost var done;
      ok, done := TailAll(w, file);
      assert w.got[|old(w.got)|..] == done;
    }
  }
}
