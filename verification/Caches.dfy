/** The caches in front of the block store: recent blocks by height and hash, the transaction
    hashes of recent blocks, and recently read blocks by hash. */
module Caches {
  import opened Blocks
  import S = BlockStores

  // ----- Queues -----

  ghost predicate In(queue: seq<Block>, b: Block) {
    exists i :: 0 <= i < |queue| && queue[i] == b
  }

  lemma InAfterRemove(queue: seq<Block>, i: nat, b: Block)
    requires i < |queue| && In(queue, b) && b != queue[i]
    ensures In(RemoveAt(queue, i), b)
  {
    var j :| 0 <= j < |queue| && queue[j] == b;
    assert RemoveAt(queue, i)[if j < i then j else j - 1] == b;
  }

  lemma InAfterPush(queue: seq<Block>, b: Block, x: Block)
    requires In(queue, x) || x == b
    ensures In(queue + [b], x)
  {
    if In(queue, x) {
      var j :| 0 <= j < |queue| && queue[j] == x;
      assert (queue + [b])[j] == x;
    } else {
      assert (queue + [b])[|queue|] == x;
    }
  }

  // ----- Recent blocks -----

  /** The height index and the hash index are both in bijection with the queue. */
  ghost predicate Indexed(queue: seq<Block>, cache: map<int, Block>, cacheHash: map<Hash, Block>) {
    && (forall i, j :: 0 <= i < j < |queue| ==> queue[i].height != queue[j].height)
    && (forall i :: 0 <= i < |queue| ==> queue[i].height in cache && cache[queue[i].height] == queue[i])
    && (forall i :: 0 <= i < |queue| ==> Digest(queue[i]) in cacheHash && cacheHash[Digest(queue[i])] == queue[i])
    && (forall h :: h in cache ==> cache[h].height == h && In(queue, cache[h]))
    && (forall x :: x in cacheHash ==> Digest(cacheHash[x]) == x && In(queue, cacheHash[x]))
  }

  lemma IndexedRemove(queue: seq<Block>, cache: map<int, Block>, cacheHash: map<Hash, Block>, i: nat)
    requires Indexed(queue, cache, cacheHash) && i < |queue|
    ensures Indexed(RemoveAt(queue, i), cache - {queue[i].height}, cacheHash - {Digest(queue[i])})
  {
    hide In;
    forall h | h in cache && h != queue[i].height
      ensures In(RemoveAt(queue, i), cache[h])
    {
      InAfterRemove(queue, i, cache[h]);
    }
    forall x | x in cacheHash && x != Digest(queue[i])
      ensures In(RemoveAt(queue, i), cacheHash[x])
    {
      InAfterRemove(queue, i, cacheHash[x]);
    }
  }

  lemma IndexedPush(queue: seq<Block>, cache: map<int, Block>, cacheHash: map<Hash, Block>, b: Block)
    requires Indexed(queue, cache, cacheHash) && b.height !in cache
    ensures Indexed(queue + [b], cache[b.height := b], cacheHash[Digest(b) := b])
  {
    hide In;
    var cache', cacheHash' := cache[b.height := b], cacheHash[Digest(b) := b];
    forall h | h in cache'
      ensures In(queue + [b], cache'[h])
    {
      InAfterPush(queue, b, cache'[h]);
    }
    forall x | x in cacheHash'
      ensures In(queue + [b], cacheHash'[x])
    {
      InAfterPush(queue, b, cacheHash'[x]);
    }
  }

  lemma IndexedMove(queue: seq<Block>, cache: map<int, Block>, cacheHash: map<Hash, Block>, i: nat)
    requires Indexed(queue, cache, cacheHash) && i < |queue|
    ensures Indexed(RemoveAt(queue, i) + [queue[i]], cache, cacheHash)
    ensures multiset(RemoveAt(queue, i) + [queue[i]]) == multiset(queue)
  {
    hide In;
    var b := queue[i];
    assert cache == (cache - {b.height})[b.height := b];
    assert cacheHash == (cacheHash - {Digest(b)})[Digest(b) := b];
    IndexedRemove(queue, cache, cacheHash, i);
    hide Indexed;
    IndexedPush(RemoveAt(queue, i), cache - {b.height}, cacheHash - {Digest(b)}, b);
    assert queue == queue[..i] + [b] + queue[i + 1..];
  }

  lemma Cached(queue: seq<Block>, cache: map<int, Block>, cacheHash: map<Hash, Block>, h: int)
    requires Indexed(queue, cache, cacheHash) && h in cache
    ensures exists i :: 0 <= i < |queue| && queue[i] == cache[h]
  {
    assert In(queue, cache[h]);
  }

  /** A queue element stands for itself in both maps; the maps of the node hold pointers into the queue. */
  class BlockCache {
    const cacheSize: nat
    var cache: map<int, Block>
    var cacheHash: map<Hash, Block>
    var cacheQueue: seq<Block>
    var maxHeight: int

    ghost predicate Valid()
      reads this
    {
      Indexed(cacheQueue, cache, cacheHash) && |cacheQueue| <= cacheSize
    }

    constructor (size: nat)
      ensures Valid() && cache == map[] && cacheSize == size
    {
      cacheSize, cache, cacheHash, cacheQueue, maxHeight := size, map[], map[], [], 0;
    }

    /** Looking a block up makes it the last to be evicted and changes no index. */
    method CheckcacheBlock(height: int) returns (block: Option<Block>)
      requires Valid()
      modifies `cacheQueue
      ensures Valid() && multiset(cacheQueue) == multiset(old(cacheQueue))
      ensures block == if height in cache then Some(cache[height]) else None
      ensures block.Some? ==> cacheQueue != [] && cacheQueue[|cacheQueue| - 1] == block.value
      ensures block.None? ==> cacheQueue == old(cacheQueue)
    {
      hide Indexed, RemoveAt;
      if height !in cache {
        return None;
      }
      var b := cache[height];
      Cached(cacheQueue, cache, cacheHash, height);
      var i :| 0 <= i < |cacheQueue| && cacheQueue[i] == b;
      IndexedMove(cacheQueue, cache, cacheHash, i);
      cacheQueue := RemoveAt(cacheQueue, i) + [b];
      return Some(b);
    }

    method GetCacheBlock(hash: Hash) returns (block: Option<Block>)
      requires Valid()
      ensures block == if hash in cacheHash then Some(cacheHash[hash]) else None
      ensures block.Some? ==> Digest(block.value) == hash
    {
      block := if hash in cacheHash then Some(cacheHash[hash]) else None;
    }

    /** Cache a block; a full cache gives up the block at the front.  For a height that is not cached
        both indexes stay in bijection with the queue. */
    method CacheBlock(b: Block)
      requires |cacheQueue| <= cacheSize
      modifies this
      ensures maxHeight == b.height && |cacheQueue| <= cacheSize
      ensures old(Valid()) && b.height !in old(cache) ==> Valid()
      ensures |old(cacheQueue)| < cacheSize ==>
                && cache == old(cache)[b.height := b] && cacheHash == old(cacheHash)[Digest(b) := b]
                && cacheQueue == old(cacheQueue) + [b]
      ensures |old(cacheQueue)| == cacheSize ==>
                var q := old(cacheQueue) + [b];
                && cache == old(cache)[b.height := b] - {q[0].height}
                && cacheHash == old(cacheHash)[Digest(b) := b] - {Digest(q[0])}
                && cacheQueue == q[1..]
    {
      hide Indexed;
      maxHeight := b.height;
      if Valid() && b.height !in cache { IndexedPush(cacheQueue, cache, cacheHash, b); }
      cacheQueue := cacheQueue + [b];
      cache := cache[b.height := b];
      cacheHash := cacheHash[Digest(b) := b];
      if |cacheQueue| > cacheSize {
        var front := cacheQueue[0];
        if Indexed(cacheQueue, cache, cacheHash) { IndexedRemove(cacheQueue, cache, cacheHash, 0); }
        assert RemoveAt(cacheQueue, 0) == cacheQueue[1..];
        cacheQueue := cacheQueue[1..];
        DelCacheBlock(front);
      }
    }

    method DelCacheBlock(b: Block)
      modifies `cache, `cacheHash
      ensures cache == old(cache) - {b.height} && cacheHash == old(cacheHash) - {Digest(b)}
    {
      cache := cache - {b.height};
      cacheHash := cacheHash - {Digest(b)};
    }

    method DelBlockFromCache(height: int)
      requires Valid()
      modifies this
      ensures Valid() && cache == old(cache) - {height} && maxHeight == height - 1
    {
      maxHeight := height - 1;
      if height in cache {
        var b := cache[height];
        assert In(cacheQueue, b);
        var i :| 0 <= i < |cacheQueue| && cacheQueue[i] == b;
        IndexedRemove(cacheQueue, cache, cacheHash, i);
        cacheQueue := RemoveAt(cacheQueue, i);
        DelCacheBlock(b);
      }
    }
  }

  // ----- Transaction hashes of recent blocks -----

  datatype CacheTx = CacheTx(height: int, txHashes: seq<string>)

  function TxHashes(txs: seq<Tx>): (hs: seq<string>)
    ensures |hs| == |txs|
    ensures forall i :: 0 <= i < |txs| ==> hs[i] == txs[i].hash
  {
    seq(|txs|, i requires 0 <= i < |txs| => txs[i].hash)
  }

  function Summary(b: Block): CacheTx {
    CacheTx(b.height, TxHashes(b.txs))
  }

  ghost predicate InWindow(data: seq<CacheTx>, x: string) {
    exists i :: 0 <= i < |data| && x in data[i].txHashes
  }

  ghost predicate AtMostOnce(data: seq<CacheTx>, x: string) {
    forall i, j :: 0 <= i < |data| && 0 <= j < |data| && x in data[i].txHashes && x in data[j].txHashes ==> i == j
  }

  /** Nothing outside the window is in the set, and every hash that has not clashed, by being in two
      blocks of the window at once since it last came into the window, is in the set exactly if it is
      in the window. */
  ghost predicate SetExact(data: seq<CacheTx>, cacheTxs: set<string>, clashed: set<string>) {
    && (forall x :: x in cacheTxs || x in clashed ==> InWindow(data, x))
    && (forall x :: x !in clashed ==> (x in cacheTxs <==> InWindow(data, x)) && AtMostOnce(data, x))
  }

  function ToSet(s: seq<string>): set<string> {
    set x | x in s
  }

  lemma WindowRemove(data: seq<CacheTx>, k: nat, x: string)
    requires k < |data|
    ensures InWindow(data, x) <==> InWindow(RemoveAt(data, k), x) || x in data[k].txHashes
    ensures AtMostOnce(data, x) ==>
              AtMostOnce(RemoveAt(data, k), x) && !(InWindow(RemoveAt(data, k), x) && x in data[k].txHashes)
  {
    var r := RemoveAt(data, k);
    forall j | 0 <= j < |r|
      ensures r[j] == data[if j < k then j else j + 1]
    {
    }
    if InWindow(data, x) && x !in data[k].txHashes {
      var i :| 0 <= i < |data| && x in data[i].txHashes;
      assert x in r[if i < k then i else i - 1].txHashes;
    }
  }

  lemma SetRemove(data: seq<CacheTx>, cacheTxs: set<string>, clashed: set<string>, k: nat)
    requires SetExact(data, cacheTxs, clashed) && k < |data|
    ensures SetExact(RemoveAt(data, k), cacheTxs - ToSet(data[k].txHashes), StillThere(clashed, RemoveAt(data, k)))
  {
    hide InWindow, AtMostOnce;
    forall x { WindowRemove(data, k, x); }
    forall x { NotThere(RemoveAt(data, k), x); }
  }

  /** A clash is over when the hash has left the window altogether. */
  ghost function StillThere(clashed: set<string>, data: seq<CacheTx>): (there: set<string>)
    ensures there <= clashed
  {
    set x | x in clashed && InWindow(data, x)
  }

  /** The set is the window without the hashes that went with a block since they were last added. */
  ghost predicate LostExact(data: seq<CacheTx>, cacheTxs: set<string>, lost: set<string>) {
    && (forall x :: x in cacheTxs <==> InWindow(data, x) && x !in lost)
    && (forall x :: x in lost ==> InWindow(data, x))
  }

  /** Only hashes that clashed are lost, and losing takes another block with the same hash. */
  lemma LostRemove(data: seq<CacheTx>, cacheTxs: set<string>, clashed: set<string>, lost: set<string>, k: nat)
    requires SetExact(data, cacheTxs, clashed) && LostExact(data, cacheTxs, lost) && lost <= clashed && k < |data|
    ensures var gone := ToSet(data[k].txHashes);
            && LostExact(RemoveAt(data, k), cacheTxs - gone, StillThere(lost + gone, RemoveAt(data, k)))
            && StillThere(lost + gone, RemoveAt(data, k)) <= StillThere(clashed, RemoveAt(data, k))
  {
    hide InWindow, AtMostOnce;
    forall x { WindowRemove(data, k, x); }
  }

  lemma LostPush(data: seq<CacheTx>, cacheTxs: set<string>, lost: set<string>, t: CacheTx)
    requires LostExact(data, cacheTxs, lost)
    ensures LostExact(data + [t], cacheTxs + ToSet(t.txHashes), lost - ToSet(t.txHashes))
  {
    hide InWindow, AtMostOnce;
    forall x { WindowPush(data, t, x); }
  }

  /** Looking after each of two removals is looking after the second. */
  lemma StillThereTwice(xs: set<string>, data: seq<CacheTx>, more: set<string>)
    requires data != []
    ensures StillThere(StillThere(xs, data) + more, RemoveAt(data, 0)) == StillThere(xs + more, RemoveAt(data, 0))
    ensures xs + {} == xs && StillThere(xs, data) + {} == StillThere(xs, data)
  {
    hide InWindow, AtMostOnce;
    forall x { WindowRemove(data, 0, x); }
  }

  lemma NotThere(data: seq<CacheTx>, x: string)
    ensures !InWindow(data, x) ==> AtMostOnce(data, x)
  {
  }

  lemma WindowPush(data: seq<CacheTx>, t: CacheTx, x: string)
    ensures InWindow(data + [t], x) <==> InWindow(data, x) || x in t.txHashes
    ensures AtMostOnce(data, x) && !(InWindow(data, x) && x in t.txHashes) ==> AtMostOnce(data + [t], x)
  {
    var r := data + [t];
    if InWindow(data, x) {
      var i :| 0 <= i < |data| && x in data[i].txHashes;
      assert x in r[i].txHashes;
    }
    if x in t.txHashes { assert x in r[|data|].txHashes; }
  }

  lemma SetPush(data: seq<CacheTx>, cacheTxs: set<string>, clashed: set<string>, t: CacheTx)
    requires SetExact(data, cacheTxs, clashed)
    ensures SetExact(data + [t], cacheTxs + ToSet(t.txHashes), clashed + Clash(data, t))
  {
    hide InWindow, AtMostOnce;
    forall x { WindowPush(data, t, x); }
  }

  /** The hashes of `t` that another block of the window already has. */
  ghost function Clash(data: seq<CacheTx>, t: CacheTx): set<string> {
    set x | x in t.txHashes && InWindow(data, x)
  }

  ghost predicate DistinctHeights(data: seq<CacheTx>) {
    forall i, j :: 0 <= i < j < |data| ==> data[i].height != data[j].height
  }

  /** What is left when a block is about to be added, the entry `k` of the same height (none if
      `k` is the length) being replaced. */
  ghost function Kept(capacity: nat, data: seq<CacheTx>, k: nat): seq<CacheTx>
    requires k <= |data|
  {
    var rest := if k < |data| then RemoveAt(data, k) else data;
    if |rest| >= capacity && rest != [] then rest[1..] else rest
  }

  /** The hashes that go with the entries not kept. */
  ghost function Dropped(capacity: nat, data: seq<CacheTx>, k: nat): set<string>
    requires k <= |data|
  {
    var rest := if k < |data| then RemoveAt(data, k) else data;
    (if k < |data| then ToSet(data[k].txHashes) else {})
    + if |rest| >= capacity && rest != [] then ToSet(rest[0].txHashes) else {}
  }

  /** `data` lists the cached blocks oldest first; nothing but adding changes their order. */
  class TxCache {
    const capacity: nat
    var cacheTxs: set<string>
    var data: seq<CacheTx>
    ghost var clashed: set<string>
    ghost var lost: set<string>

    ghost predicate Valid()
      reads this
    {
      && SetExact(data, cacheTxs, clashed) && LostExact(data, cacheTxs, lost) && lost <= clashed
      && DistinctHeights(data) && |data| <= capacity
    }

    constructor (size: nat)
      ensures Valid() && data == [] && clashed == {} && capacity == size
    {
      capacity, cacheTxs, data, clashed, lost := size, {}, [], {}, {};
    }

    method Find(height: int) returns (k: int)
      ensures 0 <= k <= |data|
      ensures forall i :: 0 <= i < k ==> data[i].height != height
      ensures k < |data| ==> data[k].height == height
    {
      k := 0;
      while k < |data| && data[k].height != height
        invariant 0 <= k <= |data|
        invariant forall i :: 0 <= i < k ==> data[i].height != height
      {
        k := k + 1;
      }
    }

    method Forget(txHashes: seq<string>)
      modifies `cacheTxs
      ensures cacheTxs == old(cacheTxs) - ToSet(txHashes)
    {
      for i := 0 to |txHashes|
        invariant cacheTxs == old(cacheTxs) - ToSet(txHashes[..i])
      {
        assert ToSet(txHashes[..i + 1]) == ToSet(txHashes[..i]) + {txHashes[i]};
        cacheTxs := cacheTxs - {txHashes[i]};
      }
      assert txHashes[..|txHashes|] == txHashes;
    }

    /** Drop the cached block at position `k` together with its hashes. */
    method RemoveEntry(k: nat)
      requires Valid() && k < |data|
      modifies `cacheTxs, `data, `clashed, `lost
      ensures Valid() && data == RemoveAt(old(data), k) && clashed == StillThere(old(clashed), data)
      ensures lost == StillThere(old(lost) + ToSet(old(data)[k].txHashes), data)
    {
      hide SetExact, LostExact, StillThere;
      SetRemove(data, cacheTxs, clashed, k);
      LostRemove(data, cacheTxs, clashed, lost, k);
      ghost var gone := ToSet(data[k].txHashes);
      Forget(data[k].txHashes);
      data := RemoveAt(data, k);
      clashed, lost := StillThere(clashed, data), StillThere(lost + gone, data);
    }

    /** Cache the hashes of a block: one of the same height is replaced, and a full cache gives
        up its oldest block. */
    method Add(b: Block) returns (ok: bool, ghost k: nat)
      requires Valid()
      modifies this
      ensures Valid() && ok == (capacity > 0)
      ensures k <= |old(data)| && (k < |old(data)| ==> old(data)[k].height == b.height)
      ensures forall i :: 0 <= i < |old(data)| && i != k ==> old(data)[i].height != b.height
      ensures !ok ==> data == [] && clashed <= old(clashed)
      ensures ok ==>
                var kept := Kept(capacity, old(data), k);
                && data == kept + [Summary(b)]
                && clashed == StillThere(old(clashed), kept) + Clash(kept, Summary(b))
                && lost == StillThere(old(lost) + Dropped(capacity, old(data), k), kept) - ToSet(TxHashes(b.txs))
    {
      hide InWindow, AtMostOnce, Clash;
      var at := Find(b.height);
      k := at;
      assert clashed == StillThere(clashed, data) && lost == StillThere(lost, data);
      ghost var replaced := if k < |data| then ToSet(data[k].txHashes) else {};
      if at < |data| {
        RemoveEntry(at);
      }
      assert lost == StillThere(old(lost) + replaced, data);
      if |data| >= capacity {
        if data == [] {
          return false, k;
        }
        assert RemoveAt(data, 0) == data[1..];
        StillThereTwice(old(clashed), data, {});
        StillThereTwice(old(lost) + replaced, data, ToSet(data[0].txHashes));
        RemoveEntry(0);
      }
      assert data == Kept(capacity, old(data), k);
      Remember(b);
      return true, k;
    }

    method Remember(b: Block)
      requires Valid() && |data| < capacity
      requires forall i :: 0 <= i < |data| ==> data[i].height != b.height
      modifies this
      ensures Valid() && data == old(data) + [Summary(b)] && clashed == old(clashed) + Clash(old(data), Summary(b))
      ensures lost == old(lost) - ToSet(TxHashes(b.txs))
    {
      hide SetExact, LostExact, Clash;
      SetPush(data, cacheTxs, clashed, Summary(b));
      LostPush(data, cacheTxs, lost, Summary(b));
      var txs := Collect(b);
      clashed, lost := clashed + Clash(data, Summary(b)), lost - ToSet(txs.txHashes);
      data := data + [txs];
    }

    method Collect(b: Block) returns (txs: CacheTx)
      modifies `cacheTxs
      ensures txs == Summary(b) && cacheTxs == old(cacheTxs) + ToSet(txs.txHashes)
    {
      txs := CacheTx(b.height, []);
      for i := 0 to |b.txs|
        invariant txs == CacheTx(b.height, TxHashes(b.txs)[..i]) && cacheTxs == old(cacheTxs) + ToSet(txs.txHashes)
      {
        txs := txs.(txHashes := txs.txHashes + [b.txs[i].hash]);
        cacheTxs := cacheTxs + {b.txs[i].hash};
      }
      assert TxHashes(b.txs)[..|b.txs|] == TxHashes(b.txs);
    }

    method Del(height: int) returns (ok: bool)
      requires Valid()
      modifies `cacheTxs, `data, `clashed, `lost
      ensures Valid() && ok && clashed <= old(clashed)
      ensures (forall i :: 0 <= i < |old(data)| ==> old(data)[i].height != height) ==>
                data == old(data) && lost == old(lost)
      ensures forall k :: 0 <= k < |old(data)| && old(data)[k].height == height ==>
                && data == RemoveAt(old(data), k)
                && lost == StillThere(old(lost) + ToSet(old(data)[k].txHashes), data)
    {
      var k := Find(height);
      if k < |data| {
        RemoveEntry(k);
      }
      return true;
    }

    method HasCacheTx(hash: string) returns (has: bool)
      requires Valid()
      ensures has <==> InWindow(data, hash) && hash !in lost
      ensures hash !in clashed ==> (has <==> InWindow(data, hash))
    {
      has := hash in cacheTxs;
    }
  }

  // ----- The caches follow the best chain -----

  /** The cached transaction lists are those of the last blocks of the chain, in order. */
  ghost predicate Suffix(data: seq<CacheTx>, best: seq<Block>) {
    && |data| <= |best|
    && (forall i :: 0 <= i < |data| ==> data[i] == Summary(best[|best| - |data| + i]))
  }

  ghost predicate OnBest(cache: map<int, Block>, best: seq<Block>) {
    forall h :: h in cache ==> 0 <= h < |best| && cache[h] == best[h]
  }

  /** Blocks kept by hash have that hash and are stored. */
  ghost predicate Addressed(active: map<Hash, Block>, table: map<Hash, Block>) {
    forall x :: x in active ==> x in table && Digest(active[x]) == x
  }

  ghost predicate HasHash(best: seq<Block>, x: string) {
    exists i :: 0 <= i < |best| && x in TxHashes(best[i].txs)
  }

  lemma SuffixHeights(data: seq<CacheTx>, best: seq<Block>)
    requires Linked(best) && Suffix(data, best)
    ensures forall i :: 0 <= i < |data| ==> data[i].height == |best| - |data| + i
  {
    forall i | 0 <= i < |data|
      ensures data[i].height == |best| - |data| + i
    {
      LinkedAt(best, |best| - |data| + i);
    }
  }

  lemma SuffixPush(data: seq<CacheTx>, best: seq<Block>, kept: seq<CacheTx>, b: Block)
    requires Suffix(data, best) && (kept == data || (data != [] && kept == data[1..]))
    ensures Suffix(kept + [Summary(b)], best + [b])
    ensures forall x :: x in Clash(kept, Summary(b)) ==> x in TxHashes(b.txs) && HasHash(best, x)
  {
    assert Suffix(kept, best);
    forall x | x in Clash(kept, Summary(b))
      ensures HasHash(best, x)
    {
      var i :| 0 <= i < |kept| && x in kept[i].txHashes;
      assert x in TxHashes(best[|best| - |kept| + i].txs);
    }
  }

  lemma SuffixPop(data: seq<CacheTx>, best: seq<Block>)
    requires best != [] && data != [] && Suffix(data, best)
    ensures Suffix(RemoveAt(data, |data| - 1), best[..|best| - 1])
  {
  }

  lemma SuffixEmpty(best: seq<Block>)
    ensures Suffix([], best)
  {
  }

  lemma TableGrows(db: S.Db, b: Block)
    requires b.height == 0 || b.parentHash in db.td
    ensures forall x :: x in db.table ==> x in S.ConnectBatch(db, b).table
  {
  }

  lemma TableKept(db: S.Db, b: Block)
    ensures S.DisconnectBatch(db, b).table == db.table
  {
  }

  lemma BestStored(db: S.Db, best: seq<Block>, h: int)
    requires S.DbInv(db, best)
    ensures h in db.heightToHash <==> 0 <= h < |best|
    ensures 0 <= h < |best| ==>
              && db.heightToHash[h] == Digest(best[h])
              && Digest(best[h]) in db.table && db.table[Digest(best[h])] == best[h]
    ensures Linked(best)
  {
    if 0 <= h < |best| { assert Digest(best[h]) in db.td; }
  }

  class CachedChain {
    const cache: BlockCache
    const txCache: TxCache
    var db: S.Db
    var active: map<Hash, Block>
    ghost var best: seq<Block>

    ghost predicate Valid()
      reads this, cache, txCache
    {
      && S.DbInv(db, best)
      && cache.Valid() && OnBest(cache.cache, best)
      && txCache.Valid() && Suffix(txCache.data, best)
      && Addressed(active, db.table)
    }

    constructor (record: bool, cacheSize: nat, txCacheSize: nat)
      ensures Valid() && best == [] && txCache.clashed == {} && fresh(cache) && fresh(txCache)
    {
      cache := new BlockCache(cacheSize);
      txCache := new TxCache(txCacheSize);
      db, active, best := S.EmptyDb(record), map[], [];
      new;
      S.EveryRunKeepsInv(record, []);
    }

    /** Keep a block that was read; the cache may refuse it or give up others for it. */
    method AddActiveBlock(hash: Hash, b: Block, fits: bool, keep: set<Hash>)
      modifies `active
      ensures fits ==> active.Keys == old(active).Keys * keep + {hash} && active[hash] == b
      ensures !fits ==> active == old(active) - {hash}
      ensures forall x :: x in active && x != hash ==> x in old(active) && active[x] == old(active)[x]
    {
      active := active - {hash};
      if !fits {
        return;
      }
      active := map x | x in active && x in keep :: active[x];
      active := active[hash := b];
    }

    /** Reading by height gives the block that is on the best chain now, whatever was cached before. */
    method GetBlock(height: int, fits: bool, keep: set<Hash>) returns (block: Option<Block>)
      requires Valid()
      modifies `active, cache`cacheQueue
      ensures Valid() && best == old(best) && db == old(db)
      ensures block == if 0 <= height < |best| then Some(best[height]) else None
    {
      hide S.DbInv;
      BestStored(db, best, height);
      var cached := cache.CheckcacheBlock(height);
      if cached.Some? {
        return cached;
      }
      if height !in db.heightToHash {
        return None;
      }
      var hash := db.heightToHash[height];
      if hash in active {
        return Some(active[hash]);
      }
      var b := db.table[hash];
      AddActiveBlock(hash, b, fits, keep);
      return Some(b);
    }

    /** Reading by hash gives the block with that hash, on the best chain or not. */
    method LoadBlockByHash(hash: Hash, fits: bool, keep: set<Hash>) returns (block: Option<Block>)
      requires Valid()
      modifies `active
      ensures Valid() && best == old(best) && db == old(db)
      ensures block.Some? <==> hash in db.table
      ensures block.Some? ==> Digest(block.value) == hash && block.value == db.table[hash]
    {
      hide S.DbInv;
      Content(hash);
      var cached := cache.GetCacheBlock(hash);
      if cached.Some? {
        return cached;
      }
      if hash in active {
        return Some(active[hash]);
      }
      if hash !in db.table {
        return None;
      }
      var b := db.table[hash];
      if b.height in db.heightToHash && db.heightToHash[b.height] == hash {
        AddActiveBlock(hash, b, fits, keep);
      }
      return Some(b);
    }

    lemma Content(hash: Hash)
      requires Valid()
      ensures hash in cache.cacheHash ==> hash in db.table && db.table[hash] == cache.cacheHash[hash]
      ensures hash in db.table ==> Digest(db.table[hash]) == hash
    {
      if hash in cache.cacheHash {
        var b := cache.cacheHash[hash];
        assert In(cache.cacheQueue, b);
        assert b.height in cache.cache && cache.cache[b.height] == b;
        BestStored(db, best, b.height);
      }
    }

    /** Put a block on the best chain: the batch, then the caches. */
    method Connect(b: Block)
      requires Valid() && Extends(best, b) && (b.height == 0 || b.parentHash in db.td)
      modifies this, cache, txCache
      ensures Valid() && best == old(best) + [b]
      ensures forall x :: x in txCache.clashed && x !in old(txCache.clashed) ==>
                x in TxHashes(b.txs) && HasHash(old(best), x)
    {
      hide S.DbInv, S.ConnectBatch, Summary, Clash, HasHash, Suffix, Indexed, SetExact, LostExact, StillThere, Dropped,
           ToSet, DistinctHeights, Linked;
      ghost var data := txCache.data;
      BestStored(db, best, b.height);
      SuffixHeights(data, best);
      SuffixEmpty(best + [b]);
      SuffixPush(data, best, Kept(txCache.capacity, data, |data|), b);
      S.ConnectKeepsInv(db, best, b);
      TableGrows(db, b);
      db := S.ConnectBatch(db, b);
      cache.CacheBlock(b);
      var _, _ := txCache.Add(b);
      best := best + [b];
    }

    /** Take the tip off the best chain and out of all three caches. */
    method Disconnect(b: Block)
      requires Valid() && best != [] && b == best[|best| - 1]
      modifies this, cache, txCache
      ensures Valid() && best == old(best)[..|old(best)| - 1] && txCache.clashed <= old(txCache.clashed)
    {
      hide S.DbInv, S.DisconnectBatch, Summary, Suffix, Indexed, SetExact, LostExact, StillThere, DistinctHeights,
           RemoveAt, Linked;
      ghost var data := txCache.data;
      BestStored(db, best, |best| - 1);
      LinkedAt(best, |best| - 1);
      SuffixHeights(data, best);
      SuffixEmpty(best[..|best| - 1]);
      if data != [] { SuffixPop(data, best); }
      S.DisconnectKeepsInv(db, best);
      TableKept(db, b);
      db := S.DisconnectBatch(db, b);
      best := best[..|best| - 1];
      DelCacheBlock(b.height, Digest(b));
    }

    method DelCacheBlock(height: int, hash: Hash)
      requires cache.Valid() && txCache.Valid()
      modifies `active, cache, txCache
      ensures cache.Valid() && cache.cache == old(cache.cache) - {height}
      ensures txCache.Valid() && txCache.clashed <= old(txCache.clashed)
      ensures (forall i :: 0 <= i < |old(txCache.data)| ==> old(txCache.data)[i].height != height) ==>
                txCache.data == old(txCache.data)
      ensures forall k :: 0 <= k < |old(txCache.data)| && old(txCache.data)[k].height == height ==>
                txCache.data == RemoveAt(old(txCache.data), k)
      ensures active == old(active) - {hash}
    {
      cache.DelBlockFromCache(height);
      var _ := txCache.Del(height);
      active := active - {hash};
    }
  }
}
