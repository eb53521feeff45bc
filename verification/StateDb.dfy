/** The state database an executor works on: a transaction cache over a block cache over the
    store, with begin, commit and rollback. */
module StateDbs {
  import opened Blocks

  type Key = string
  type Value = string
  type State = map<Key, Value>

  /** One write; a nil value removes the key from the cache it is written to. */
  datatype KV = KV(key: Key, value: Option<Value>)

  function SetMap(m: State, kv: KV): State {
    if kv.value.None? then m - {kv.key} else m[kv.key := kv.value.value]
  }

  /** A cache after a list of writes. */
  function Put(m: State, kvs: seq<KV>): State {
    if kvs == [] then m else SetMap(Put(m, kvs[..|kvs| - 1]), kvs[|kvs| - 1])
  }

  function Keys(kvs: seq<KV>): set<Key> {
    set i | 0 <= i < |kvs| :: kvs[i].key
  }

  predicate NoNil(kvs: seq<KV>) {
    forall i :: 0 <= i < |kvs| ==> kvs[i].value.Some?
  }

  /** The last value written to `k`: nothing, a removal, or a value. */
  function Last(kvs: seq<KV>, k: Key): Option<Option<Value>> {
    if kvs == [] then None
    else if kvs[|kvs| - 1].key == k then Some(kvs[|kvs| - 1].value)
    else Last(kvs[..|kvs| - 1], k)
  }

  function Lookup(m: State, k: Key): Option<Value> {
    if k in m then Some(m[k]) else None
  }

  lemma {:induction false} PutAt(m: State, kvs: seq<KV>, k: Key)
    ensures Lookup(Put(m, kvs), k) == if Last(kvs, k).None? then Lookup(m, k) else Last(kvs, k).value
    ensures k in Keys(kvs) <==> Last(kvs, k).Some?
    ensures NoNil(kvs) && Last(kvs, k).Some? ==> Last(kvs, k).value.Some?
    decreases |kvs|
  {
    if kvs != [] {
      var n := |kvs| - 1;
      PutAt(m, kvs[..n], k);
      assert kvs == kvs[..n] + [kvs[n]];
      assert k in Keys(kvs) <==> k in Keys(kvs[..n]) || k == kvs[n].key by {
        if k in Keys(kvs[..n]) { var i :| 0 <= i < n && kvs[..n][i].key == k; assert kvs[i].key == k; }
        if k in Keys(kvs) { var i :| 0 <= i <= n && kvs[i].key == k; assert i < n ==> kvs[..n][i].key == k; }
      }
    }
  }

  lemma SameLookups(a: State, b: State)
    requires forall k :: Lookup(a, k) == Lookup(b, k)
    ensures a == b
  {
    forall k
      ensures k in a <==> k in b
      ensures k in a ==> a[k] == b[k]
    {
      assert Lookup(a, k) == Lookup(b, k);
    }
  }

  lemma {:induction false} PutJoin(m: State, a: seq<KV>, b: seq<KV>)
    ensures Put(m, a + b) == Put(Put(m, a), b)
    decreases |b|
  {
    if b == [] {
      assert a + b == a;
    } else {
      var n := |b| - 1;
      PutJoin(m, a, b[..n]);
      assert (a + b)[..|a + b| - 1] == a + b[..n];
    }
  }

  /** Writing a receipt over a driver's own writes leaves exactly the receipt, as long as every
      key the driver wrote is in the receipt: no other write survives. */
  lemma ReceiptDominates(m: State, writes: seq<KV>, kvs: seq<KV>)
    requires Keys(writes) <= Keys(kvs)
    ensures Put(Put(m, writes), kvs) == Put(m, kvs)
  {
    forall k
      ensures Lookup(Put(Put(m, writes), kvs), k) == Lookup(Put(m, kvs), k)
    {
      PutAt(Put(m, writes), kvs, k);
      PutAt(m, writes, k);
      PutAt(m, kvs, k);
    }
    SameLookups(Put(Put(m, writes), kvs), Put(m, kvs));
  }

  /** Without nil values, a committed cache is the writes applied in order to what was there. */
  lemma CommitIsOverlay(base: State, kvs: seq<KV>)
    requires NoNil(kvs)
    ensures base + Put(map[], kvs) == Put(base, kvs)
  {
    forall k
      ensures Lookup(base + Put(map[], kvs), k) == Lookup(Put(base, kvs), k)
    {
      PutAt(map[], kvs, k);
      PutAt(base, kvs, k);
    }
    SameLookups(base + Put(map[], kvs), Put(base, kvs));
  }

  /** With nil values this holds exactly when no key that ends up nil was there before: a nil
      write empties the cache entry, so the older value shows through instead of disappearing. */
  lemma CommitIsOverlayExactly(base: State, kvs: seq<KV>)
    ensures base + Put(map[], kvs) == Put(base, kvs) <==>
            forall k :: k in base ==> Last(kvs, k) != Some(None)
  {
    forall k
      ensures Lookup(base + Put(map[], kvs), k) == Lookup(Put(base, kvs), k)
              <==> !(k in base && Last(kvs, k) == Some(None))
    {
      PutAt(map[], kvs, k);
      PutAt(base, kvs, k);
    }
    if forall k :: k in base ==> Last(kvs, k) != Some(None) {
      SameLookups(base + Put(map[], kvs), Put(base, kvs));
    }
  }

  lemma NilWriteShowsOldValue()
    ensures map["k" := "old"] + Put(map[], [KV("k", None)]) != Put(map["k" := "old"], [KV("k", None)])
  {
    CommitIsOverlayExactly(map["k" := "old"], [KV("k", None)]);
    assert Last([KV("k", None)], "k") == Some(None);
  }

  ghost predicate SameEffect(a: seq<KV>, b: seq<KV>) {
    forall s: State :: Put(s, a) == Put(s, b)
  }

  ghost predicate SameLast(a: seq<KV>, b: seq<KV>) {
    forall k :: Last(a, k) == Last(b, k)
  }

  lemma SameLastSameEffect(s: State, a: seq<KV>, b: seq<KV>)
    requires SameLast(a, b)
    ensures Put(s, a) == Put(s, b)
  {
    forall k
      ensures Lookup(Put(s, a), k) == Lookup(Put(s, b), k)
    {
      PutAt(s, a, k);
      PutAt(s, b, k);
    }
    SameLookups(Put(s, a), Put(s, b));
  }

  lemma SameEffectSameLast(a: seq<KV>, b: seq<KV>, k: Key)
    requires SameEffect(a, b)
    ensures Last(a, k) == Last(b, k)
  {
    var none: State, some: State := map[], map[k := "x"];
    assert Put(none, a) == Put(none, b) && Put(some, a) == Put(some, b);
    PutAt(none, a, k);
    PutAt(none, b, k);
    PutAt(some, a, k);
    PutAt(some, b, k);
  }

  /** Two lists of writes always have the same effect exactly when they leave the same last value
      for every key; the genesis block needs this of a driver's writes and its receipt, because
      nothing there makes the two agree. */
  lemma SameEffectExactly(a: seq<KV>, b: seq<KV>)
    ensures SameEffect(a, b) <==> SameLast(a, b)
  {
    if SameLast(a, b) {
      forall s: State ensures Put(s, a) == Put(s, b) { SameLastSameEffect(s, a, b); }
    }
    if SameEffect(a, b) {
      forall k ensures Last(a, k) == Last(b, k) { SameEffectSameLast(a, b, k); }
    }
  }

  /** What `k` holds after a list of writes. */
  function Ends(m: State, kvs: seq<KV>, k: Key): Option<Value> {
    if Last(kvs, k).None? then Lookup(m, k) else Last(kvs, k).value
  }

  /** What reads see of `k` after a list of writes straight to a cache over `store`: a removed entry
      shows what is stored. */
  function Shows(store: State, before: State, writes: seq<KV>, k: Key): Option<Value> {
    if Last(writes, k) == Some(None) then Lookup(store, k) else Ends(before, writes, k)
  }

  lemma ShownThrough(store: State, cache: State, writes: seq<KV>, k: Key)
    ensures Lookup(store + Put(cache, writes), k) == Shows(store, store + cache, writes, k)
  {
    PutAt(cache, writes, k);
  }

  /** Writes straight to the cache show what a receipt says. */
  ghost predicate Agrees(store: State, before: State, writes: seq<KV>, kvs: seq<KV>) {
    forall k :: Shows(store, before, writes, k) == Ends(before, kvs, k)
  }

  /** Then, and only then, the view is the receipt written over what was there. */
  lemma AgreesExactly(store: State, before: State, after: State, writes: seq<KV>, kvs: seq<KV>)
    requires forall k :: Lookup(after, k) == Shows(store, before, writes, k)
    ensures after == Put(before, kvs) <==> Agrees(store, before, writes, kvs)
  {
    forall k
      ensures Lookup(Put(before, kvs), k) == Ends(before, kvs, k)
    {
      PutAt(before, kvs, k);
    }
    if Agrees(store, before, writes, kvs) { SameLookups(after, Put(before, kvs)); }
  }

  /** Without removals they agree in every state exactly if they have the same last writes. */
  lemma AgreesAlways(writes: seq<KV>, kvs: seq<KV>)
    requires NoNil(writes)
    ensures (forall store: State, before: State :: Agrees(store, before, writes, kvs)) <==> SameLast(writes, kvs)
  {
    forall store: State, before: State
      ensures Agrees(store, before, writes, kvs) <==> Put(before, writes) == Put(before, kvs)
    {
      forall k
        ensures Lookup(Put(before, writes), k) == Shows(store, before, writes, k)
      {
        PutAt(before, writes, k);
      }
      AgreesExactly(store, before, Put(before, writes), writes, kvs);
    }
    SameEffectExactly(writes, kvs);
    if forall store: State, before: State :: Agrees(store, before, writes, kvs) {
      forall s: State
        ensures Put(s, writes) == Put(s, kvs)
      {
        assert Agrees(s, s, writes, kvs);
      }
    }
  }

  lemma WriteThrough(store: State, cache: State, kv: KV)
    requires kv.value.Some?
    ensures store + SetMap(cache, kv) == SetMap(store + cache, kv)
  {
  }

  /** `store` is the state at the block's state hash; `mvcc` says it is read through the
      versioned index, whose answers are not cached. */
  class StateDB {
    const store: State
    const mvcc: bool
    var cache: State
    var txcache: Option<State>   // None is Go's nil map
    var keys: seq<Key>
    var intx: bool

    constructor (store: State, mvcc: bool)
      ensures View() == store && !intx && keys == [] && Base() == store
    {
      this.store, this.mvcc := store, mvcc;
      cache, txcache, keys, intx := map[], Some(map[]), [], false;
    }

    /** What reads see outside a transaction. */
    ghost function Base(): State
      reads this
    {
      store + cache
    }

    /** The current transaction's writes. */
    ghost function Layer(): State
      reads this
    {
      if intx && txcache.Some? then txcache.value else map[]
    }

    /** What reads see. */
    ghost function View(): State
      reads this
    {
      Base() + Layer()
    }

    method Begin()
      modifies this
      ensures intx && keys == [] && Base() == old(Base()) && Layer() == map[]
    {
      intx, keys, txcache := true, [], None;
    }

    method Rollback()
      modifies this
      ensures !intx && Base() == old(Base()) && View() == old(Base())
    {
      intx, txcache, keys := false, None, [];
    }

    method Commit()
      requires intx
      modifies this
      ensures !intx && View() == old(View())
    {
      if txcache.Some? {
        cache := cache + txcache.value;
      }
      assert store + cache == old(Base() + Layer());
      intx, txcache, keys := false, None, [];
    }

    /** Read a key; a value found in the store is remembered, which no read can notice. */
    method Get(key: Key) returns (value: Option<Value>)
      modifies this
      ensures value == Lookup(View(), key)
      ensures View() == old(View()) && Base() == old(Base()) && Layer() == old(Layer())
      ensures intx == old(intx) && keys == old(keys)
    {
      if intx && txcache.Some? && key in txcache.value {
        return Some(txcache.value[key]);
      }
      if key in cache {
        return Some(cache[key]);
      }
      if key !in store {
        return None;
      }
      if !mvcc {
        cache := cache[key := store[key]];
        assert store + cache == old(Base());
      }
      return Some(store[key]);
    }

    method Set(kv: KV)
      modifies this
      ensures intx == old(intx)
      ensures intx ==> Base() == old(Base()) && Layer() == SetMap(old(Layer()), kv) && keys == old(keys) + [kv.key]
      ensures !intx ==> cache == SetMap(old(cache), kv) && Base() == View()
      ensures !intx && kv.value.Some? ==> View() == SetMap(old(View()), kv)
    {
      if intx {
        var m := if txcache.Some? then txcache.value else map[];
        keys := keys + [kv.key];
        txcache := Some(SetMap(m, kv));
      } else {
        cache := SetMap(cache, kv);
        assert Base() + map[] == Base() && old(Base()) + map[] == old(Base());
        if kv.value.Some? { WriteThrough(store, old(cache), kv); }
      }
    }

    /** Write a list in order inside a transaction. */
    method SetAll(kvs: seq<KV>)
      requires intx
      modifies this
      ensures intx && Base() == old(Base()) && Layer() == Put(old(Layer()), kvs)
      ensures |keys| == |old(keys)| + |kvs| && keys[..|old(keys)|] == old(keys)
      ensures forall i :: 0 <= i < |kvs| ==> keys[|old(keys)| + i] == kvs[i].key
    {
      ghost var k := |keys|;
      for i := 0 to |kvs|
        invariant intx && Base() == old(Base()) && Layer() == Put(old(Layer()), kvs[..i])
        invariant |keys| == k + i && keys[..k] == old(keys)
        invariant forall j :: 0 <= j < i ==> keys[k + j] == kvs[j].key
      {
        Set(kvs[i]);
        assert kvs[..i + 1][..i] == kvs[..i];
      }
      assert kvs[..|kvs|] == kvs;
    }
  }
}
