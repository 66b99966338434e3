/** The sharded overwrite map of app/temporary/linkhub/concurrent. */
module BucketMap {
  import opened Wrappers
  import Decimal
  import Fnv

  /** string keys, int64 keys, and keys of a type defined on top of one of them. */
  datatype Key = Str(s: seq<bv8>) | Num(n: Decimal.Int64) | Named(name: seq<bv8>)

  function Ascii(c: char): bv8 {
    if c as int < 128 then (c as int) as bv8 else 0
  }

  function Bytes(s: string): seq<bv8> {
    seq(|s|, i requires 0 <= i < |s| => Ascii(s[i]))
  }

  /** The type switch of fnv32 does not match a named type: such keys all hash to 0. */
  function Hash(k: Key): bv32 {
    match k
    case Str(s) => Fnv.Hash(s)
    case Num(n) => Fnv.Hash(Bytes(Decimal.FormatInt(n)))
    case Named(_) => 0
  }

  function Slot(k: Key, size: nat): (i: nat)
    requires size > 0
    ensures i < size
  {
    (Hash(k) as int) % size
  }

  /** string keys hash as in FNV-1, int64 keys as their decimal form does, and all others to 0. */
  lemma HashIs(k: Key, size: nat)
    requires size > 0
    ensures k.Str? ==> Hash(k) == Fnv.Hash(k.s)
    ensures k.Num? ==> Hash(k) == Fnv.Hash(Bytes(Decimal.FormatInt(k.n)))
    ensures k.Named? ==> Hash(k) == 0
    ensures Slot(k, size) == (Hash(k) as int) % size
  {
  }

  /** The bytes of a decimal form are its characters' codes. */
  lemma BytesAre(n: Decimal.Int64, i: nat)
    requires i < |Decimal.FormatInt(n)|
    ensures |Bytes(Decimal.FormatInt(n))| == |Decimal.FormatInt(n)|
    ensures Bytes(Decimal.FormatInt(n))[i] == (Decimal.FormatInt(n)[i] as int) as bv8
  {
    Decimal.FormatChars(n, i);
  }

  function Find<V>(m: map<Key, V>, k: Key): Option<V> {
    if k in m then Some(m[k]) else None
  }

  /** What a Range callback may do to the map it is called from. */
  datatype MapOp<V> = StoreOp(key: Key, val: V) | DeleteOp(key: Key)

  function ApplyOp<V>(m: map<Key, V>, op: MapOp<V>): map<Key, V> {
    match op
    case StoreOp(k, v) => m[k := v]
    case DeleteOp(k) => m - {k}
  }

  class Bucket<V> {
    var elems: map<Key, V>

    constructor ()
      ensures elems == map[]
    {
      elems := map[];
    }
  }

  ghost predicate KeysOnce<V>(visited: seq<(Key, V)>) {
    forall i, j | 0 <= i < j < |visited| :: visited[i].0 != visited[j].0
  }

  predicate Has<V>(visited: seq<(Key, V)>, k: Key) {
    exists i | 0 <= i < |visited| :: visited[i].0 == k
  }

  /** What Range has visited when snaps[s] was the map at the moment bucket s was cloned. */
  ghost predicate Visiting<V>(visited: seq<(Key, V)>, snaps: seq<map<Key, V>>, size: nat)
    requires size > 0
  {
    && KeysOnce(visited)
    && (forall k :: Has(visited, k) <==> Slot(k, size) < |snaps| && k in snaps[Slot(k, size)])
    && (forall i | 0 <= i < |visited| :: Seen(visited[i], snaps, size))
  }

  ghost predicate Seen<V>(e: (Key, V), snaps: seq<map<Key, V>>, size: nat)
    requires size > 0
  {
    var s := Slot(e.0, size);
    s < |snaps| && e.0 in snaps[s] && snaps[s][e.0] == e.1
  }

  /** The map after a sequence of operations. */
  function After<V>(m: map<Key, V>, ops: seq<MapOp<V>>): map<Key, V> {
    if ops == [] then m else ApplyOp(After(m, ops[..|ops| - 1]), ops[|ops| - 1])
  }

  /** Store overwrites and Delete removes, in the order of the operations. */
  lemma AfterSnoc<V>(m: map<Key, V>, ops: seq<MapOp<V>>, key: Key, val: V)
    ensures After(m, []) == m
    ensures var was, stored, gone := After(m, ops), After(m, ops + [StoreOp(key, val)]), After(m, ops + [DeleteOp(key)]);
      && Find(stored, key) == Some(val) && Find(gone, key) == None
      && forall k | k != key :: Find(stored, k) == Find(was, k) && Find(gone, k) == Find(was, k)
  {
    assert (ops + [StoreOp(key, val)])[..|ops|] == ops && (ops + [DeleteOp(key)])[..|ops|] == ops;
  }

  /**
   The operations of the callback on the visited entries, in order, when Range starts on map m: each
   call sees its entry and the map as the calls before have left it.
   */
  function CallsOf<V>(fn: (Key, V, map<Key, V>) -> seq<MapOp<V>>, m: map<Key, V>, visited: seq<(Key, V)>): seq<MapOp<V>> {
    if visited == [] then []
    else
      var last, before := visited[|visited| - 1], CallsOf(fn, m, visited[..|visited| - 1]);
      before + fn(last.0, last.1, After(m, before))
  }

  lemma CallsSnoc<V>(fn: (Key, V, map<Key, V>) -> seq<MapOp<V>>, m: map<Key, V>, visited: seq<(Key, V)>, k: Key, v: V)
    ensures var before := CallsOf(fn, m, visited);
      CallsOf(fn, m, visited + [(k, v)]) == before + fn(k, v, After(m, before))
  {
    assert (visited + [(k, v)])[..|visited|] == visited;
  }

  lemma {:induction false} HistoryAfter<V>(history: seq<map<Key, V>>, ops: seq<MapOp<V>>)
    requires History(history, ops)
    ensures history[|ops|] == After(history[0], ops)
    decreases |ops|
  {
    if ops != [] {
      HistoryAfter(history[..|ops|], ops[..|ops| - 1]);
    }
  }

  /** The run of map states while Range calls back: each differs from the one before by one operation. */
  ghost predicate History<V>(history: seq<map<Key, V>>, ops: seq<MapOp<V>>) {
    && |history| == |ops| + 1
    && forall i | 0 <= i < |ops| :: history[i + 1] == ApplyOp(history[i], ops[i])
  }

  /**
   Whatever the callback stores or deletes, Range visits no key twice, visits every key that is
   present throughout, and visits only entries that were in the map at some moment.
   */
  lemma RangeCovers<V>(visited: seq<(Key, V)>, snaps: seq<map<Key, V>>, history: seq<map<Key, V>>, size: nat, k: Key)
    requires size > 0 && |snaps| == size && Visiting(visited, snaps, size)
    requires forall s | 0 <= s < size :: snaps[s] in history
    ensures (forall h | 0 <= h < |history| :: k in history[h]) ==> Has(visited, k)
    ensures forall i, j | 0 <= i < |visited| && 0 <= j < |visited| && visited[i].0 == visited[j].0 :: i == j
    ensures forall i | 0 <= i < |visited| ::
      exists h :: 0 <= h < |history| && visited[i].0 in history[h] && history[h][visited[i].0] == visited[i].1
  {
    assert snaps[Slot(k, size)] in history;
    forall i | 0 <= i < |visited|
      ensures exists h :: 0 <= h < |history| && visited[i].0 in history[h] && history[h][visited[i].0] == visited[i].1
    {
      assert Seen(visited[i], snaps, size);
      assert snaps[Slot(visited[i].0, size)] in history;
    }
  }

  lemma VisitOne<V>(visited: seq<(Key, V)>, snaps: seq<map<Key, V>>, size: nat, e: (Key, V), rest: map<Key, V>)
    requires size > 0 && Visiting(visited, snaps + [rest], size)
    requires Slot(e.0, size) == |snaps| && e.0 !in rest
    ensures Visiting(visited + [e], snaps + [rest[e.0 := e.1]], size)
  {
    var all, after := visited + [e], snaps + [rest[e.0 := e.1]];
    forall k ensures Has(all, k) <==> Slot(k, size) < |after| && k in after[Slot(k, size)] {
      if Has(visited, k) {
        var i :| 0 <= i < |visited| && visited[i].0 == k;
        assert all[i].0 == k;
      }
      if k == e.0 {
        assert all[|visited|].0 == k;
      }
      if Has(all, k) && k != e.0 {
        var i :| 0 <= i < |all| && all[i].0 == k;
        assert visited[i].0 == k;
      }
    }
    assert !Has(visited, e.0);
    forall i | 0 <= i < |all| ensures Seen(all[i], after, size) {
      if i < |visited| {
        assert Seen(visited[i], snaps + [rest], size);
        assert visited[i].0 != e.0;
      }
    }
  }

  lemma VisitTaken<V>(visited: seq<(Key, V)>, snaps: seq<map<Key, V>>, size: nat, tmp: map<Key, V>, todo: set<Key>, k: Key)
    requires size > 0 && k in todo && k in tmp && Slot(k, size) == |snaps|
    requires Visiting(visited, snaps + [tmp - todo], size)
    ensures Visiting(visited + [(k, tmp[k])], snaps + [tmp - (todo - {k})], size)
  {
    VisitOne(visited, snaps, size, (k, tmp[k]), tmp - todo);
    assert (tmp - todo)[k := tmp[k]] == tmp - (todo - {k});
  }

  /** Opening the next bucket with nothing visited of it yet. */
  lemma VisitNext<V>(visited: seq<(Key, V)>, snaps: seq<map<Key, V>>, size: nat)
    requires size > 0 && Visiting(visited, snaps, size)
    ensures Visiting(visited, snaps + [map[]], size)
  {
    forall i | 0 <= i < |visited| ensures Seen(visited[i], snaps + [map[]], size) {
      assert Seen(visited[i], snaps, size);
    }
  }

  /** Keys of other buckets in the clone's place make no difference. */
  lemma VisitWiden<V>(visited: seq<(Key, V)>, snaps: seq<map<Key, V>>, size: nat, own: map<Key, V>, whole: map<Key, V>)
    requires size > 0 && Visiting(visited, snaps + [own], size)
    requires forall k | Slot(k, size) == |snaps| :: Find(own, k) == Find(whole, k)
    ensures Visiting(visited, snaps + [whole], size)
  {
    var a, c := snaps + [own], snaps + [whole];
    forall k ensures Has(visited, k) <==> Slot(k, size) < |c| && k in c[Slot(k, size)] {
      assert Slot(k, size) == |snaps| ==> Find(own, k) == Find(whole, k);
    }
    forall i | 0 <= i < |visited| ensures Seen(visited[i], c, size) {
      assert Seen(visited[i], a, size);
      assert Slot(visited[i].0, size) == |snaps| ==> Find(own, visited[i].0) == Find(whole, visited[i].0);
    }
  }

  class BucketMap<V> {
    const size: nat
    const buckets: seq<Bucket<V>>
    /** The one plain map the buckets stand for. */
    ghost var contents: map<Key, V>

    ghost predicate Valid()
      reads this, buckets
    {
      && size == |buckets| > 0
      && (forall i, j | 0 <= i < j < size :: buckets[i] != buckets[j])
      && (forall k :: Find(buckets[Slot(k, size)].elems, k) == Find(contents, k))
      && (forall i, k | 0 <= i < size && k in buckets[i].elems :: Slot(k, size) == i)
    }

    constructor (size: nat)
      requires size > 0
      ensures Valid() && contents == map[] && fresh(buckets) && this.size == size
    {
      var made: seq<Bucket<V>> := [];
      for i := 0 to size
        invariant |made| == i && fresh(made)
        invariant forall j | 0 <= j < i :: made[j].elems == map[]
        invariant forall j, k | 0 <= j < k < i :: made[j] != made[k]
      {
        var b := new Bucket<V>();
        made := made + [b];
      }
      this.size, buckets, contents := size, made, map[];
    }

    function BucketOf(key: Key): Bucket<V>
      requires size == |buckets| > 0
    {
      buckets[Slot(key, size)]
    }

    method Load(key: Key) returns (r: Option<V>)
      requires Valid()
      ensures r == Find(contents, key)
    {
      var b := BucketOf(key);
      r := if key in b.elems then Some(b.elems[key]) else None;
    }

    method Store(key: Key, val: V)
      requires Valid()
      modifies this`contents, buckets
      ensures Valid() && contents == old(contents)[key := val]
    {
      var b := BucketOf(key);
      b.elems := b.elems[key := val];
      contents := contents[key := val];
    }

    method Delete(key: Key)
      requires Valid()
      modifies this`contents, buckets
      ensures Valid() && contents == old(contents) - {key}
    {
      var b := BucketOf(key);
      b.elems := b.elems - {key};
      contents := contents - {key};
    }

    method LoadAndDelete(key: Key) returns (r: Option<V>)
      requires Valid()
      modifies this`contents, buckets
      ensures Valid() && r == Find(old(contents), key) && contents == old(contents) - {key}
    {
      var b := BucketOf(key);
      if key in b.elems {
        r := Some(b.elems[key]);
        b.elems := b.elems - {key};
      } else {
        r := None;
      }
      contents := contents - {key};
    }

    /** What the callback does, one operation after the other. */
    method Perform(todo: seq<MapOp<V>>, ghost history: seq<map<Key, V>>, ghost ops: seq<MapOp<V>>)
      returns (ghost after: seq<map<Key, V>>)
      requires Valid() && History(history, ops) && history[|ops|] == contents
      modifies this`contents, buckets
      ensures Valid() && History(after, ops + todo) && after[|ops + todo|] == contents
      ensures history <= after
    {
      after := history;
      for i := 0 to |todo|
        invariant Valid() && History(after, ops + todo[..i]) && after[|ops| + i] == contents
        invariant history <= after
      {
        match todo[i] {
          case StoreOp(k, v) => Store(k, v);
          case DeleteOp(k) => Delete(k);
        }
        after := after + [contents];
        assert todo[..i + 1] == todo[..i] + [todo[i]];
      }
      assert todo[..|todo|] == todo;
    }

    /** All entries of the first n buckets. */
    function Snapshot(n: nat): (m: map<Key, V>)
      requires Valid() && n <= size
      reads this, buckets
      ensures forall k :: Find(m, k) == if Slot(k, size) < n then Find(contents, k) else None
    {
      if n == 0 then map[] else Snapshot(n - 1) + buckets[n - 1].elems
    }

    lemma SnapshotIsContents()
      requires Valid()
      ensures Snapshot(size) == contents
    {
      var m := Snapshot(size);
      forall k ensures k in m <==> k in contents {
        assert Find(m, k) == Find(contents, k);
      }
      forall k | k in m ensures m[k] == contents[k] {
        assert Find(m, k) == Find(contents, k);
      }
    }

    /** One call of fn. */
    method CallBack(fn: (Key, V, map<Key, V>) -> seq<MapOp<V>>, k: Key, v: V, ghost visited: seq<(Key, V)>,
                    ghost history: seq<map<Key, V>>, ghost ops: seq<MapOp<V>>)
      returns (ghost after: seq<map<Key, V>>, ghost ops': seq<MapOp<V>>)
      requires Valid() && History(history, ops) && history[|ops|] == contents
      requires ops == CallsOf(fn, history[0], visited)
      modifies this`contents, buckets
      ensures Valid() && History(after, ops') && after[|ops'|] == contents && history <= after
      ensures ops' == CallsOf(fn, history[0], visited + [(k, v)])
    {
      SnapshotIsContents();
      HistoryAfter(history, ops);
      var calls := fn(k, v, Snapshot(size));
      after := Perform(calls, history, ops);
      ops' := ops + calls;
      CallsSnoc(fn, history[0], visited, k, v);
    }

    /**
     Range clones one bucket after the other and calls fn on each cloned entry. `snaps` are the maps at
     the moments of cloning, `history` all states of the map, `ops` all operations of the callback, which
     is given its entry and the map as it is at that moment.
     */
    method Range(fn: (Key, V, map<Key, V>) -> seq<MapOp<V>>)
      returns (visited: seq<(Key, V)>, ghost snaps: seq<map<Key, V>>, ghost history: seq<map<Key, V>>, ghost ops: seq<MapOp<V>>)
      requires Valid()
      modifies this`contents, buckets
      ensures Valid() && |snaps| == size && Visiting(visited, snaps, size)
      ensures History(history, ops) && history[0] == old(contents) && history[|ops|] == contents
      ensures forall s | 0 <= s < size :: snaps[s] in history
      ensures ops == CallsOf(fn, old(contents), visited) && contents == After(old(contents), ops)
    {
      visited, snaps, history, ops := [], [], [contents], [];
      for i := 0 to size
        invariant Valid() && |snaps| == i && Visiting(visited, snaps, size)
        invariant History(history, ops) && history[0] == old(contents) && history[|ops|] == contents
        invariant forall s | 0 <= s < i :: snaps[s] in history
        invariant ops == CallsOf(fn, history[0], visited)
      {
        ghost var before := history;
        visited, history, ops := RangeBucket(i, fn, visited, snaps, history, ops);
        snaps := snaps + [before[|before| - 1]];
        assert before[|before| - 1] in history;
      }
      HistoryAfter(history, ops);
    }

    method RangeBucket(s: nat, fn: (Key, V, map<Key, V>) -> seq<MapOp<V>>, visited0: seq<(Key, V)>, ghost snaps: seq<map<Key, V>>,
                       ghost history0: seq<map<Key, V>>, ghost ops0: seq<MapOp<V>>)
      returns (visited: seq<(Key, V)>, ghost history: seq<map<Key, V>>, ghost ops: seq<MapOp<V>>)
      requires Valid() && s == |snaps| < size && Visiting(visited0, snaps, size)
      requires History(history0, ops0) && history0[|ops0|] == contents
      requires ops0 == CallsOf(fn, history0[0], visited0)
      modifies this`contents, buckets
      ensures Valid() && Visiting(visited, snaps + [old(contents)], size)
      ensures History(history, ops) && history[|ops|] == contents && history0 <= history
      ensures ops == CallsOf(fn, history0[0], visited)
    {
      var tmp := buckets[s].elems;
      visited, history, ops := visited0, history0, ops0;
      var todo := tmp.Keys;
      assert tmp - todo == map[];
      VisitNext(visited, snaps, size);
      while todo != {}
        invariant Valid() && todo <= tmp.Keys
        invariant Visiting(visited, snaps + [tmp - todo], size)
        invariant History(history, ops) && history[|ops|] == contents && history0 <= history
        invariant ops == CallsOf(fn, history0[0], visited)
        decreases |todo|
      {
        var k :| k in todo;
        VisitTaken(visited, snaps, size, tmp, todo, k);
        history, ops := CallBack(fn, k, tmp[k], visited, history, ops);
        visited := visited + [(k, tmp[k])];
        todo := todo - {k};
      }
      assert tmp - todo == tmp;
      VisitWiden(visited, snaps, size, tmp, old(contents));
    }
  }
}
