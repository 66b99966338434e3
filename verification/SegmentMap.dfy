/** FNV-1, 32 bits: for each byte, multiply by the prime, then xor. */
module Fnv {

  const OFFSET_BASIS: bv32 := 2166136261
  const PRIME: bv32 := 16777619

  function Mix(hash: bv32, b: bv8): bv32 {
    (hash * PRIME) ^ (b as bv32)
  }

  function Fold(step: (bv32, bv8) -> bv32, start: bv32, key: seq<bv8>): bv32 {
    if key == [] then start else step(Fold(step, start, key[..|key| - 1]), key[|key| - 1])
  }

  function Hash(key: seq<bv8>): bv32 {
    Fold(Mix, OFFSET_BASIS, key)
  }

  method Absorb(hash: bv32, b: bv8) returns (next: bv32)
    ensures next == Mix(hash, b)
  {
    next := hash * PRIME;
    next := next ^ (b as bv32);
  }

  method Fnv32(key: seq<bv8>) returns (hash: bv32)
    ensures hash == Hash(key)
  {
    hash := OFFSET_BASIS;
    for i := 0 to |key|
      invariant hash == Hash(key[..i])
    {
      assert key[..i + 1][..i] == key[..i];
      hash := Absorb(hash, key[i]);
    }
    assert key[..|key|] == key;
  }

  /** The bytes are absorbed one after the other, from the offset basis. */
  lemma HashSnoc(key: seq<bv8>, b: bv8)
    ensures Hash([]) == 2166136261
    ensures Hash(key + [b]) == Mix(Hash(key), b)
  {
    assert (key + [b])[..|key|] == key;
  }

  /** Published FNV-1 vectors: the empty string, "a" and "foobar"; FNV-1a would give 0xe40c292c for "a". */
  lemma FnvVectors()
    ensures Hash([]) == 0x811c9dc5 && Hash([0x61]) == 0x050c5d7e
    ensures Hash([0x66, 0x6f, 0x6f, 0x62, 0x61, 0x72]) == 0x31f0b262
  {
    var f, fo, foo: seq<bv8> := [0x66], [0x66, 0x6f], [0x66, 0x6f, 0x6f];
    HashSnoc([], 0x61);
    assert [] + [0x61 as bv8] == [0x61];
    HashSnoc([], 0x66);
    assert [] + [0x66 as bv8] == f;
    HashSnoc(f, 0x6f);
    assert f + [0x6f] == fo;
    HashSnoc(fo, 0x6f);
    assert fo + [0x6f] == foo;
    HashSnoc(foo, 0x62);
    HashSnoc(foo + [0x62], 0x61);
    HashSnoc(foo + [0x62] + [0x61], 0x72);
    assert foo + [0x62] + [0x61] + [0x72] == [0x66, 0x6f, 0x6f, 0x62, 0x61, 0x72];
  }

  function Slot(key: seq<bv8>, size: nat): (i: nat)
    requires size > 0
    ensures i < size
  {
    (Hash(key) as int) % size
  }

  /** The hash is read as a non-negative number before the remainder is taken. */
  lemma SlotIs(key: seq<bv8>, size: nat)
    requires size > 0
    ensures Slot(key, size) == (Hash(key) as int) % size
  {
  }
}

/** The segmented connection map of bridge/mlink/map.go. */
module SegmentMap {
  import opened Wrappers
  import Fnv

  type Key = seq<bv8>

  datatype Connect = Connect(id: int, session: nat)

  function Find(m: map<Key, Connect>, k: Key): Option<Connect> {
    if k in m then Some(m[k]) else None
  }

  ghost predicate NoRepeat(s: seq<Key>) {
    forall i, j | 0 <= i < j < |s| :: s[i] != s[j]
  }

  // ---------------------------------------------------------------------------------------------
  // Enumeration copies one slot after the other
  // ---------------------------------------------------------------------------------------------

  /** What IDs may have listed of the slots copied so far when history[s] was the map at the moment slot s was copied. */
  ghost predicate Listing(keys: seq<Key>, ids: seq<int>, history: seq<map<Key, Connect>>, size: nat)
    requires size > 0
  {
    && |keys| == |ids| && NoRepeat(keys)
    && (forall k :: k in keys <==> var s := Fnv.Slot(k, size); s < |history| && k in history[s])
    && (forall i | 0 <= i < |keys| :: Listed(keys[i], ids[i], history, size))
  }

  ghost predicate Listed(k: Key, id: int, history: seq<map<Key, Connect>>, size: nat)
    requires size > 0
  {
    var s := Fnv.Slot(k, size);
    s < |history| && k in history[s] && id == history[s][k].id
  }

  /** ks lists slot s of the map m. */
  ghost predicate SlotListing(ks: seq<Key>, cs: seq<Connect>, m: map<Key, Connect>, s: nat, size: nat)
    requires size > 0
  {
    && |ks| == |cs| && NoRepeat(ks)
    && (forall k :: k in ks <==> k in m && Fnv.Slot(k, size) == s)
    && (forall i | 0 <= i < |ks| :: ks[i] in m && cs[i] == m[ks[i]])
  }

  function IdsOf(cs: seq<Connect>): (ids: seq<int>)
    ensures |ids| == |cs| && forall i | 0 <= i < |cs| :: ids[i] == cs[i].id
  {
    if cs == [] then [] else IdsOf(cs[..|cs| - 1]) + [cs[|cs| - 1].id]
  }

  lemma ListingExtends(keys: seq<Key>, ids: seq<int>, history: seq<map<Key, Connect>>, size: nat,
                       m: map<Key, Connect>, ks: seq<Key>, cs: seq<Connect>)
    requires size > 0 && Listing(keys, ids, history, size)
    requires SlotListing(ks, cs, m, |history|, size)
    ensures Listing(keys + ks, ids + IdsOf(cs), history + [m], size)
  {
    var all, after := keys + ks, history + [m];
    forall k ensures k in all <==> var t := Fnv.Slot(k, size); t < |after| && k in after[t] {
      assert k in all <==> k in keys || k in ks;
    }
    forall i, j | 0 <= i < j < |all| ensures all[i] != all[j] {
      if i < |keys| <= j {
        assert all[i] in keys && all[j] in ks;
      }
    }
    forall i | 0 <= i < |all| ensures Listed(all[i], (ids + IdsOf(cs))[i], after, size) {
      if i >= |keys| {
        assert all[i] == ks[i - |keys|] && ks[i - |keys|] in ks;
      } else {
        assert Listed(keys[i], ids[i], history, size);
      }
    }
  }

  lemma {:induction false} KeysCount(keys: seq<Key>, all: set<Key>)
    requires NoRepeat(keys) && forall k :: k in keys <==> k in all
    ensures |keys| == |all|
    decreases |keys|
  {
    if keys == [] {
      assert all == {};
    } else {
      var init, last := keys[..|keys| - 1], keys[|keys| - 1];
      assert keys == init + [last];
      assert forall k :: k in keys <==> k in init || k == last;
      KeysCount(init, all - {last});
    }
  }

  /** A listing without repetition has every id of the map, as often as a connection has it. */
  lemma ListedOnce(ids: seq<int>, keys: seq<Key>, m: map<Key, Connect>)
    requires |ids| == |keys| && NoRepeat(keys)
    requires forall k :: k in keys <==> k in m
    requires forall i | 0 <= i < |keys| :: keys[i] in m && ids[i] == m[keys[i]].id
    ensures |ids| == |m| && forall k | k in m :: m[k].id in ids
  {
    KeysCount(keys, m.Keys);
    forall k | k in m ensures m[k].id in ids {
      assert k in keys;
      var i :| 0 <= i < |keys| && keys[i] == k;
      assert ids[i] == m[k].id;
    }
  }

  /**
   Whatever runs between the snapshots, no key is listed twice, every key present throughout is
   listed, and every listed key was present at some moment with the listed id.
   */
  lemma ConcurrentIDs(keys: seq<Key>, ids: seq<int>, history: seq<map<Key, Connect>>, k: Key)
    requires |history| > 0 && Listing(keys, ids, history, |history|)
    ensures (forall s | 0 <= s < |history| :: k in history[s]) ==> exists i :: 0 <= i < |keys| && keys[i] == k
    ensures forall i, j | 0 <= i < |keys| && 0 <= j < |keys| && keys[i] == k && keys[j] == k :: i == j
    ensures forall i | 0 <= i < |keys| && keys[i] == k ::
      exists s :: 0 <= s < |history| && k in history[s] && ids[i] == history[s][k].id
  {
    assert forall i | 0 <= i < |keys| :: Listed(keys[i], ids[i], history, |history|);
    assert k in keys <==> k in history[Fnv.Slot(k, |history|)];
  }

  /** What other goroutines may do to the map meanwhile. */
  datatype MapOp = PutOp(id: Key, conn: Connect) | DelOp(id: Key)

  function After(m: map<Key, Connect>, ops: seq<MapOp>): map<Key, Connect> {
    if ops == [] then m
    else
      var before := After(m, ops[..|ops| - 1]);
      match ops[|ops| - 1]
      case PutOp(id, conn) => if id in before then before else before[id := conn]
      case DelOp(id) => before - {id}
  }

  /** Put is put-if-absent and Del removes, in the order of the operations. */
  lemma AfterSnoc(m: map<Key, Connect>, ops: seq<MapOp>, id: Key, conn: Connect)
    ensures After(m, []) == m
    ensures var was, put, del := After(m, ops), After(m, ops + [PutOp(id, conn)]), After(m, ops + [DelOp(id)]);
      && id in put && put[id] == (if id in was then was[id] else conn) && id !in del
      && forall k | k != id :: Find(put, k) == Find(was, k) && Find(del, k) == Find(was, k)
  {
    assert (ops + [PutOp(id, conn)])[..|ops|] == ops && (ops + [DelOp(id)])[..|ops|] == ops;
  }

  function LastOf(history: seq<map<Key, Connect>>, start: map<Key, Connect>): map<Key, Connect> {
    if history == [] then start else history[|history| - 1]
  }

  /** From one moment to the next the map changes by what the others do in between. */
  ghost predicate Evolves(history: seq<map<Key, Connect>>, start: map<Key, Connect>, others: nat -> seq<MapOp>) {
    forall s | 0 <= s < |history| :: history[s] == After(LastOf(history[..s], start), others(s))
  }

  lemma EvolvesOn(history: seq<map<Key, Connect>>, start: map<Key, Connect>, others: nat -> seq<MapOp>, m: map<Key, Connect>)
    requires Evolves(history, start, others) && m == After(LastOf(history, start), others(|history|))
    ensures Evolves(history + [m], start, others)
  {
    var longer := history + [m];
    forall s | 0 <= s < |longer| ensures longer[s] == After(LastOf(longer[..s], start), others(s)) {
      assert longer[..s] == history[..s];
      if s == |history| {
        assert history[..s] == history;
      }
    }
  }

  /** The inner loop of IDs. */
  method AppendIds(ret: seq<int>, cs: seq<Connect>) returns (ids: seq<int>)
    ensures ids == ret + IdsOf(cs)
  {
    ids := ret;
    for i := 0 to |cs|
      invariant ids == ret + IdsOf(cs[..i])
    {
      assert cs[..i + 1][..i] == cs[..i];
      ids := ids + [cs[i].id];
    }
    assert cs[..|cs|] == cs;
  }

  class SafeMap {
    var elems: map<Key, Connect>

    constructor ()
      ensures elems == map[]
    {
      elems := map[];
    }

    method Put(id: Key, conn: Connect) returns (ok: bool)
      modifies this
      ensures ok <==> id !in old(elems)
      ensures elems == if ok then old(elems)[id := conn] else old(elems)
    {
      if id in elems {
        return false;
      }
      elems := elems[id := conn];
      ok := true;
    }

    method Del(id: Key) returns (c: Option<Connect>)
      modifies this
      ensures c == Find(old(elems), id) && elems == old(elems) - {id}
    {
      if id in elems {
        c := Some(elems[id]);
        elems := elems - {id};
      } else {
        c := None;
        assert elems == elems - {id};
      }
    }

    /** connections: the stored connections in the order of some enumeration of the keys. */
    method Connections() returns (conns: seq<Connect>, ghost keys: seq<Key>)
      ensures |conns| == |keys| && NoRepeat(keys)
      ensures forall k :: k in keys <==> k in elems
      ensures forall i | 0 <= i < |keys| :: keys[i] in elems && conns[i] == elems[keys[i]]
    {
      conns, keys := [], [];
      var todo := elems.Keys;
      while todo != {}
        invariant todo <= elems.Keys
        invariant |conns| == |keys| && NoRepeat(keys)
        invariant forall k :: k in keys <==> k in elems && k !in todo
        invariant forall i | 0 <= i < |keys| :: keys[i] in elems && conns[i] == elems[keys[i]]
        decreases |todo|
      {
        var k :| k in todo;
        conns, keys := conns + [elems[k]], keys + [k];
        todo := todo - {k};
      }
    }
  }

  class SegmentMap {
    const size: nat
    const slot: seq<SafeMap>
    /** The one plain map the slots stand for. */
    ghost var contents: map<Key, Connect>

    ghost predicate Valid()
      reads this, slot
    {
      && size == |slot| > 0
      && (forall i, j | 0 <= i < j < size :: slot[i] != slot[j])
      && (forall k | k in contents :: Find(slot[Fnv.Slot(k, size)].elems, k) == Some(contents[k]))
      && (forall i, k | 0 <= i < size && k in slot[i].elems :: Fnv.Slot(k, size) == i && k in contents)
    }

    constructor (slots: int)
      ensures Valid() && contents == map[] && fresh(slot)
      ensures size == if slots <= 0 then 8 else slots
    {
      var n := if slots <= 0 then 8 else slots;
      var made: seq<SafeMap> := [];
      for i := 0 to n
        invariant |made| == i && fresh(made)
        invariant forall j | 0 <= j < i :: made[j].elems == map[]
        invariant forall j, k | 0 <= j < k < i :: made[j] != made[k]
      {
        var sm := new SafeMap();
        made := made + [sm];
      }
      size, slot, contents := n, made, map[];
    }

    method GetSlot(key: Key) returns (sm: SafeMap)
      requires Valid()
      ensures sm == slot[Fnv.Slot(key, size)]
    {
      var hash := Fnv.Fnv32(key);
      var idx := (hash as int) % size;
      sm := slot[idx];
    }

    /** Put is put-if-absent on the whole map. */
    method Put(id: Key, conn: Connect) returns (ok: bool)
      requires Valid()
      modifies this`contents, slot
      ensures Valid()
      ensures ok <==> id !in old(contents)
      ensures contents == if ok then old(contents)[id := conn] else old(contents)
    {
      var sm := GetSlot(id);
      ok := sm.Put(id, conn);
      if ok {
        contents := contents[id := conn];
      }
    }

    method Get(id: Key) returns (c: Option<Connect>)
      requires Valid()
      ensures c == Find(contents, id)
    {
      var sm := GetSlot(id);
      c := if id in sm.elems then Some(sm.elems[id]) else None;
    }

    method Del(id: Key) returns (c: Option<Connect>)
      requires Valid()
      modifies this`contents, slot
      ensures Valid()
      ensures c == Find(old(contents), id) && contents == old(contents) - {id}
    {
      var sm := GetSlot(id);
      c := sm.Del(id);
      contents := contents - {id};
    }

    /** The connections of one slot are those of the whole map that belong there. */
    method Snapshot(s: nat) returns (cs: seq<Connect>, ghost ks: seq<Key>)
      requires Valid() && s < size
      ensures SlotListing(ks, cs, contents, s, size)
    {
      cs, ks := slot[s].Connections();
      forall k ensures k in ks <==> k in contents && Fnv.Slot(k, size) == s {
        assert k in contents ==> Find(slot[Fnv.Slot(k, size)].elems, k) == Some(contents[k]);
      }
      forall i | 0 <= i < |ks| ensures cs[i] == contents[ks[i]] {
        assert ks[i] in ks;
      }
    }

    /** One round of IDs. */
    method CopySlot(s: nat, ret: seq<int>, ghost listed: seq<Key>, ghost history: seq<map<Key, Connect>>)
      returns (ids: seq<int>, ghost keys: seq<Key>)
      requires Valid() && s == |history| < size && Listing(listed, ret, history, size)
      ensures Listing(keys, ids, history + [contents], size)
    {
      var cs, ks := Snapshot(s);
      ListingExtends(listed, ret, history, size, contents, ks, cs);
      ids := AppendIds(ret, cs);
      keys := listed + ks;
    }

    method ListIDs() returns (ids: seq<int>, ghost keys: seq<Key>)
      requires Valid()
      ensures |ids| == |keys| && NoRepeat(keys)
      ensures forall k :: k in keys <==> k in contents
      ensures forall i | 0 <= i < |keys| :: keys[i] in contents && ids[i] == contents[keys[i]].id
    {
      ids, keys := [], [];
      ghost var history: seq<map<Key, Connect>> := [];
      for s := 0 to size
        invariant |history| == s && (forall t | 0 <= t < s :: history[t] == contents)
        invariant Listing(keys, ids, history, size)
      {
        ids, keys := CopySlot(s, ids, keys, history);
        history := history + [contents];
      }
      assert forall i | 0 <= i < |keys| :: Listed(keys[i], ids[i], history, size);
    }

    method Perform(ops: seq<MapOp>)
      requires Valid()
      modifies this`contents, slot
      ensures Valid() && contents == After(old(contents), ops)
    {
      for i := 0 to |ops|
        invariant Valid() && contents == After(old(contents), ops[..i])
      {
        assert ops[..i + 1][..i] == ops[..i];
        match ops[i] {
          case PutOp(id, conn) => var _ := Put(id, conn);
          case DelOp(id) => var _ := Del(id);
        }
      }
      assert ops[..|ops|] == ops;
    }

    /**
     IDs while other operations run: others(s) before slot s is copied. `history[s]` is the map at that
     moment.
     */
    method IDsAmid(others: nat -> seq<MapOp>) returns (ids: seq<int>, ghost keys: seq<Key>, ghost history: seq<map<Key, Connect>>)
      requires Valid()
      modifies this`contents, slot
      ensures Valid() && |history| == size && history[size - 1] == contents
      ensures Evolves(history, old(contents), others)
      ensures Listing(keys, ids, history, size)
    {
      ids, keys, history := [], [], [];
      for s := 0 to size
        invariant Valid() && |history| == s
        invariant contents == LastOf(history, old(contents)) && Evolves(history, old(contents), others)
        invariant Listing(keys, ids, history, size)
      {
        Perform(others(s));
        EvolvesOn(history, old(contents), others, contents);
        ids, keys := CopySlot(s, ids, keys, history);
        history := history + [contents];
      }
    }

    /** IDs lists every stored connection's id exactly once. */
    method IDs() returns (ids: seq<int>, ghost keys: seq<Key>)
      requires Valid()
      ensures |ids| == |contents| == |keys| && forall i, j | 0 <= i < j < |keys| :: keys[i] != keys[j]
      ensures forall i | 0 <= i < |ids| :: keys[i] in contents && ids[i] == contents[keys[i]].id
      ensures forall k | k in contents :: contents[k].id in ids
    {
      ids, keys := ListIDs();
      ListedOnce(ids, keys, contents);
    }
  }
}
