/** Tokens of app/temporary/linkhub: signing, parsing, and looking a connection up by its token. */
module MinionToken {
  import opened Wrappers
  import opened Decimal

  newtype Byte = b: int | 0 <= b < 256

  const SEPARATOR := '.'

  datatype Conn = Conn(id: Int64, token: string)

  const HEX := "0123456789abcdef"

  function Hex(buf: seq<Byte>): string {
    if buf == [] then ""
    else Hex(buf[..|buf| - 1]) + Pair(buf[|buf| - 1])
  }

  function Pair(b: Byte): string {
    [HEX[(b as int) / 16], HEX[(b as int) % 16]]
  }

  /** The id, the separator and 30 random bytes in hexadecimal. */
  function Sign(id: Int64, buf: seq<Byte>): string {
    FormatInt(id) + [SEPARATOR] + Hex(buf)
  }

  /** What comes before the first separator, if there is one. */
  function BeforeSeparator(token: string): Option<string> {
    if token == [] then None
    else if token[0] == SEPARATOR then Some("")
    else match BeforeSeparator(token[1..])
      case None => None
      case Some(s) => Some([token[0]] + s)
  }

  function After(prefix: string, rest: Option<string>): Option<string> {
    match rest
    case None => None
    case Some(s) => Some(prefix + s)
  }

  lemma PassOne(token: string, i: nat)
    requires i < |token| && token[i] != SEPARATOR
    ensures After(token[..i], BeforeSeparator(token[i..])) == After(token[..i + 1], BeforeSeparator(token[i + 1..]))
  {
    assert token[i..][1..] == token[i + 1..];
    assert token[..i + 1] == token[..i] + [token[i]];
    match BeforeSeparator(token[i + 1..])
    case None =>
    case Some(s) => assert token[..i] + ([token[i]] + s) == token[..i + 1] + s;
  }

  /** parseID: strings.SplitN with at most two parts; no separator reads as the empty id. */
  method ParseID(token: string) returns (id: string)
    ensures id == match BeforeSeparator(token) case Some(s) => s case None => ""
  {
    var i := 0;
    assert token[0..] == token && token[..0] == "";
    assert forall s: string :: "" + s == s;
    while i < |token| && token[i] != SEPARATOR
      invariant 0 <= i <= |token|
      invariant BeforeSeparator(token) == After(token[..i], BeforeSeparator(token[i..]))
    {
      PassOne(token, i);
      i := i + 1;
    }
    if i < |token| {
      id := token[..i];
      assert id + "" == id;
    } else {
      id := "";
    }
  }

  method SignToken(id: Int64, buf: seq<Byte>) returns (token: string)
    ensures token == Sign(id, buf)
  {
    var hex := "";
    for i := 0 to |buf|
      invariant hex == Hex(buf[..i])
    {
      assert buf[..i + 1][..i] == buf[..i];
      var b := buf[i] as int;
      hex := hex + [HEX[b / 16], HEX[b % 16]];
    }
    assert buf[..|buf|] == buf;
    token := FormatInt(id) + [SEPARATOR] + hex;
  }

  lemma {:induction false} BeforeFirst(prefix: string, rest: string)
    requires SEPARATOR !in prefix
    ensures BeforeSeparator(prefix + [SEPARATOR] + rest) == Some(prefix)
  {
    var s := prefix + [SEPARATOR] + rest;
    if prefix != [] {
      BeforeFirst(prefix[1..], rest);
      assert s[1..] == prefix[1..] + [SEPARATOR] + rest;
      assert prefix == [prefix[0]] + prefix[1..];
    }
  }

  /** The id read from a signed token is the id it was signed for, whatever the random bytes. */
  lemma SignedIdReadsBack(id: Int64, buf: seq<Byte>)
    ensures BeforeSeparator(Sign(id, buf)) == Some(FormatInt(id))
    ensures ParseInt(FormatInt(id)) == id
  {
    forall i: nat | i < |FormatInt(id)| ensures FormatInt(id)[i] != SEPARATOR {
      FormatChars(id, i);
    }
    BeforeFirst(FormatInt(id), Hex(buf));
    ParseFormat(id);
  }

  /** Lower-case hexadecimal, two digits a byte, high digit first. */
  lemma {:induction false} HexIs(buf: seq<Byte>, i: nat)
    requires i < |buf|
    ensures |Hex(buf)| == 2 * |buf|
    ensures HexValue(Hex(buf)[2 * i]) * 16 + HexValue(Hex(buf)[2 * i + 1]) == buf[i] as int
  {
    var n, front := |buf| - 1, buf[..|buf| - 1];
    var last := buf[n] as int;
    HexLength(front);
    HexDigitValue(last / 16);
    HexDigitValue(last % 16);
    if i < n {
      HexIs(front, i);
      assert Hex(buf)[2 * i] == Hex(front)[2 * i] && Hex(buf)[2 * i + 1] == Hex(front)[2 * i + 1];
    }
  }

  lemma {:induction false} HexLength(buf: seq<Byte>)
    ensures |Hex(buf)| == 2 * |buf|
  {
    if buf != [] {
      HexLength(buf[..|buf| - 1]);
    }
  }

  /** The value of a lower-case hexadecimal digit, -1 for any other character. */
  function HexValue(c: char): int {
    if '0' <= c <= '9' then c as int - '0' as int
    else if 'a' <= c <= 'f' then 10 + (c as int - 'a' as int)
    else -1
  }

  lemma HexDigitValue(d: nat)
    requires d < 16
    ensures HexValue(HEX[d]) == d
  {
  }

  /** A token is the id's decimal form, a dot, and the random bytes. */
  lemma SignIs(id: Int64, buf: seq<Byte>)
    ensures Sign(id, buf) == FormatInt(id) + ['.'] + Hex(buf)
  {
  }

  /** A token without a dot is looked up as id 0. */
  lemma {:induction false} NoSeparator(token: string)
    requires '.' !in token
    ensures BeforeSeparator(token) == None && LookupID(token) == 0
  {
    if token != [] {
      NoSeparator(token[1..]);
    }
  }

  lemma HexDigits(a: nat, c: nat)
    requires a < 16 && c < 16 && HEX[a] == HEX[c]
    ensures a == c
  {
  }

  lemma PairInjective(a: Byte, c: Byte)
    requires Pair(a) == Pair(c)
    ensures a == c
  {
    var x, y := a as int, c as int;
    assert Pair(a)[0] == HEX[x / 16] && Pair(a)[1] == HEX[x % 16];
    assert Pair(c)[0] == HEX[y / 16] && Pair(c)[1] == HEX[y % 16];
    HexDigits(x % 16, y % 16);
    HexDigits(x / 16, y / 16);
  }

  lemma {:induction false} HexInjective(a: seq<Byte>, c: seq<Byte>)
    requires Hex(a) == Hex(c)
    ensures a == c
  {
    if a != [] && c != [] {
      var a', c' := a[..|a| - 1], c[..|c| - 1];
      var p, q := Pair(a[|a| - 1]), Pair(c[|c| - 1]);
      assert p == Hex(a)[|Hex(a)| - 2..] == q;
      assert Hex(a') == Hex(a)[..|Hex(a)| - 2] == Hex(c');
      PairInjective(a[|a| - 1], c[|c| - 1]);
      HexInjective(a', c');
      assert a == a' + [a[|a| - 1]] && c == c' + [c[|c| - 1]];
    }
  }

  /** Two signed tokens are equal only if id and random bytes are. */
  lemma SignInjective(id: Int64, buf: seq<Byte>, id': Int64, buf': seq<Byte>)
    requires Sign(id, buf) == Sign(id', buf')
    ensures id == id' && buf == buf'
  {
    SignedIdReadsBack(id, buf);
    SignedIdReadsBack(id', buf');
    var n := |FormatInt(id)| + 1;
    assert Sign(id, buf)[n..] == Hex(buf) && Sign(id', buf')[n..] == Hex(buf');
    HexInjective(buf, buf');
  }

  function LookupID(token: string): Int64 {
    ParseInt(match BeforeSeparator(token) case Some(s) => s case None => "")
  }

  function Lookup(minions: map<Int64, Conn>, token: string): Option<Conn> {
    var mid := LookupID(token);
    if mid in minions && minions[mid].token == token then Some(minions[mid]) else None
  }

  /** Every connection is stored under its own id and holds a token signed for that id. */
  ghost predicate Enrolled(minions: map<Int64, Conn>) {
    forall id | id in minions :: minions[id].id == id && exists buf :: minions[id].token == Sign(id, buf)
  }

  /** A token finds a connection if and only if that connection is the current entry of its id and holds the token. */
  lemma LookupIff(minions: map<Int64, Conn>, token: string, c: Conn)
    requires Enrolled(minions)
    ensures Lookup(minions, token) == Some(c) <==> c.id in minions && minions[c.id] == c && c.token == token
  {
    if c.id in minions && minions[c.id] == c && c.token == token {
      var buf :| c.token == Sign(c.id, buf);
      SignedIdReadsBack(c.id, buf);
    }
  }

  class Hub {
    var minions: map<Int64, Conn>

    constructor ()
      ensures minions == map[] && Enrolled(minions)
    {
      minions := map[];
    }

    /** Connect stores the connection under its id, replacing any other. */
    method Connect(id: Int64, buf: seq<Byte>) returns (c: Conn)
      requires Enrolled(minions)
      modifies this
      ensures Enrolled(minions) && c == Conn(id, Sign(id, buf)) && minions == old(minions)[id := c]
    {
      var token := SignToken(id, buf);
      c := Conn(id, token);
      minions := minions[id := c];
    }

    method Disconnect(c: Conn)
      requires Enrolled(minions)
      modifies this
      ensures Enrolled(minions) && minions == old(minions) - {c.id}
    {
      minions := minions - {c.id};
    }

    method TokenLookup(token: string) returns (c: Option<Conn>)
      ensures c == Lookup(minions, token)
      ensures c.Some? ==> c.value in minions.Values && c.value.token == token
    {
      var minionID := ParseID(token);
      var mid := ParseInt(minionID);
      if mid in minions && minions[mid].token == token {
        return Some(minions[mid]);
      }
      c := None;
    }
  }
}
