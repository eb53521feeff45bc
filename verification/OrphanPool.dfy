/** Blocks whose parent is unknown, waiting by parent hash. */
module OrphanPools {
  import opened Blocks

  const MAX_ORPHAN_BLOCKS := 10240

  datatype Orphan = Orphan(block: Block, expiration: int)

  function Key(o: Orphan): Hash {
    Digest(o.block)
  }

  /** A list without the entries for hash `h`. */
  function Without(os: seq<Orphan>, h: Hash): (r: seq<Orphan>)
    ensures |r| <= |os|
    ensures forall o :: o in r <==> o in os && Key(o) != h
  {
    if os == [] then []
    else if Key(os[|os| - 1]) == h then Without(os[..|os| - 1], h)
    else Without(os[..|os| - 1], h) + [os[|os| - 1]]
  }

  ghost predicate DistinctKeys(os: seq<Orphan>) {
    forall i, j :: 0 <= i < j < |os| ==> Key(os[i]) != Key(os[j])
  }

  lemma WithoutStep(os: seq<Orphan>, h: Hash, i: nat)
    requires i < |os|
    ensures Without(os[..i + 1], h) == if Key(os[i]) == h then Without(os[..i], h) else Without(os[..i], h) + [os[i]]
  {
    assert os[..i + 1][..i] == os[..i];
  }

  lemma WithoutPush(os: seq<Orphan>, o: Orphan, h: Hash)
    ensures Without(os + [o], h) == if Key(o) == h then Without(os, h) else Without(os, h) + [o]
  {
    assert (os + [o])[..|os|] == os;
  }

  lemma {:induction false} WithoutDistinct(os: seq<Orphan>, h: Hash)
    requires DistinctKeys(os)
    ensures DistinctKeys(Without(os, h))
    decreases |os|
  {
    hide Without;
    if os != [] {
      var n := |os| - 1;
      WithoutDistinct(os[..n], h);
      WithoutStep(os, h, n);
      assert os[..n + 1] == os;
      forall o | o in Without(os[..n], h)
        ensures Key(o) != Key(os[n])
      {
        var i :| 0 <= i < n && os[..n][i] == o;
        assert os[i] == o;
      }
      DistinctPush(Without(os[..n], h), os[n]);
    }
  }

  lemma DistinctPush(os: seq<Orphan>, o: Orphan)
    requires DistinctKeys(os) && forall x :: x in os ==> Key(x) != Key(o)
    ensures DistinctKeys(os + [o])
  {
  }

  /** Where a list continues, from position `k` on, after its part `w`. */
  lemma Splice<T>(w: seq<T>, list: seq<T>, k: nat)
    requires k < |list|
    ensures (w + list[k..])[|w|] == list[k]
    ensures (w + list[k..])[..|w|] + (w + list[k..])[|w| + 1..] == w + list[k + 1..]
    ensures w + list[k..] == w + [list[k]] + list[k + 1..]
  {
  }

  /** `b` hangs from `hash` through blocks that are themselves in the pool. */
  ghost predicate Reachable(orphans: map<Hash, Orphan>, hash: Hash, b: Block)
    decreases b
  {
    b.parentHash == hash ||
    (b.parentHash.Digest? && b.parentHash in orphans && Reachable(orphans, hash, b.parentHash.block))
  }

  function Group(prev: map<Hash, seq<Orphan>>, h: Hash): seq<Orphan> {
    if h in prev then prev[h] else []
  }

  /** `prev` is exactly the grouping of `orphans` by parent hash, without empty groups. */
  ghost predicate Grouped(orphans: map<Hash, Orphan>, prev: map<Hash, seq<Orphan>>) {
    && (forall h :: h in orphans ==> Key(orphans[h]) == h && orphans[h] in Group(prev, orphans[h].block.parentHash))
    && (forall p :: p in prev ==> GroupOk(orphans, p, prev[p]))
  }

  ghost predicate GroupOk(orphans: map<Hash, Orphan>, p: Hash, os: seq<Orphan>) {
    && os != [] && DistinctKeys(os)
    && (forall o :: o in os ==> o.block.parentHash == p && Key(o) in orphans && orphans[Key(o)] == o)
  }

  function SetGroup(prev: map<Hash, seq<Orphan>>, p: Hash, os: seq<Orphan>): map<Hash, seq<Orphan>> {
    if os == [] then prev - {p} else prev[p := os]
  }

  lemma GroupAfterRemove(orphans: map<Hash, Orphan>, p: Hash, os: seq<Orphan>, b: Block)
    requires GroupOk(orphans, p, os)
    ensures p != b.parentHash ==> GroupOk(orphans - {Digest(b)}, p, os)
    ensures Without(os, Digest(b)) != [] ==> GroupOk(orphans - {Digest(b)}, p, Without(os, Digest(b)))
  {
    WithoutDistinct(os, Digest(b));
  }

  lemma RemoveKeepsGroups(orphans: map<Hash, Orphan>, prev: map<Hash, seq<Orphan>>, b: Block)
    requires Grouped(orphans, prev)
    ensures Grouped(orphans - {Digest(b)}, SetGroup(prev, b.parentHash, Without(Group(prev, b.parentHash), Digest(b))))
  {
    hide GroupOk, Without;
    var h, p := Digest(b), b.parentHash;
    var prev' := SetGroup(prev, p, Without(Group(prev, p), h));
    forall q | q in prev'
      ensures GroupOk(orphans - {h}, q, prev'[q])
    {
      GroupAfterRemove(orphans, q, prev[q], b);
    }
    forall x | x in orphans - {h}
      ensures orphans[x] in Group(prev', orphans[x].block.parentHash)
    {
      assert orphans[x] in Group(prev, orphans[x].block.parentHash);
    }
  }

  lemma GroupAfterAdd(orphans: map<Hash, Orphan>, q: Hash, os: seq<Orphan>, o: Orphan)
    requires GroupOk(orphans, q, os) && Key(o) !in orphans
    ensures GroupOk(orphans[Key(o) := o], q, os)
    ensures q == o.block.parentHash ==> GroupOk(orphans[Key(o) := o], q, os + [o])
  {
  }

  lemma NewGroup(orphans: map<Hash, Orphan>, o: Orphan)
    ensures GroupOk(orphans[Key(o) := o], o.block.parentHash, [] + [o])
  {
  }

  lemma AddKeepsGroups(orphans: map<Hash, Orphan>, prev: map<Hash, seq<Orphan>>, o: Orphan)
    requires Grouped(orphans, prev) && Key(o) !in orphans
    ensures Grouped(orphans[Key(o) := o], prev[o.block.parentHash := Group(prev, o.block.parentHash) + [o]])
  {
    hide GroupOk;
    var p := o.block.parentHash;
    var prev' := prev[p := Group(prev, p) + [o]];
    forall q | q in prev'
      ensures GroupOk(orphans[Key(o) := o], q, prev'[q])
    {
      if q in prev { GroupAfterAdd(orphans, q, prev[q], o); } else { NewGroup(orphans, o); }
    }
    forall x | x in orphans
      ensures orphans[x] in Group(prev', orphans[x].block.parentHash)
    {
      assert orphans[x] in Group(prev, orphans[x].block.parentHash);
    }
    assert prev'[p][|prev'[p]| - 1] == o;
  }

  /** A list whose first `k` entries have been looked at: those for `hash` are gone. */
  ghost function Partly(list: seq<Orphan>, hash: Hash, k: nat): seq<Orphan>
    requires k <= |list|
  {
    Without(list[..k], hash) + list[k..]
  }

  lemma PartlyStep(list: seq<Orphan>, hash: Hash, k: nat)
    requires k < |list|
    ensures var r, i, n := Partly(list, hash, k), |Without(list[..k], hash)|, |Without(list[..k + 1], hash)|;
            && i < |r| && r[i] == list[k]
            && if Key(list[k]) == hash then Partly(list, hash, k + 1) == r[..i] + r[i + 1..] && n == i
               else Partly(list, hash, k + 1) == r && n == i + 1
  {
    hide Without;
    WithoutStep(list, hash, k);
    Splice(Without(list[..k], hash), list, k);
  }

  lemma PartlyEnds(list: seq<Orphan>, hash: Hash)
    ensures Partly(list, hash, 0) == list && Partly(list, hash, |list|) == Without(list, hash)
    ensures Without(list[..0], hash) == []
    ensures forall k :: 0 <= k <= |list| ==> |Partly(list, hash, k)| == |Without(list[..k], hash)| + |list| - k
  {
    assert list[..|list|] == list;
  }

  /** Drop the entries for `hash` from a list, shifting the rest down. */
  method Drop(list: seq<Orphan>, hash: Hash) returns (r: seq<Orphan>)
    ensures r == Without(list, hash)
  {
    hide Without, Partly;
    r := list;
    var i := 0;
    ghost var k := 0;
    PartlyEnds(list, hash);
    while i < |r|
      invariant k <= |list| && r == Partly(list, hash, k) && i == |Without(list[..k], hash)|
      decreases |list| - k
    {
      PartlyStep(list, hash, k);
      if Key(r[i]) == hash {
        r := r[..i] + r[i + 1..];
      } else {
        i := i + 1;
      }
      k := k + 1;
    }
  }

  /** Reaching a pool block is reaching its parent too. */
  lemma {:induction false} ReachStep(orphans: map<Hash, Orphan>, mid: Hash, up: Hash, b: Block)
    requires mid in orphans && orphans[mid].block.parentHash == up && Key(orphans[mid]) == mid
    requires Reachable(orphans, mid, b)
    ensures Reachable(orphans, up, b)
    decreases b
  {
    if b.parentHash != mid { ReachStep(orphans, mid, up, b.parentHash.block); }
  }

  lemma ReachableUp(orphans: map<Hash, Orphan>, hash: Hash, mid: Hash, up: Hash)
    requires hash in orphans && Key(orphans[hash]) == hash
    requires mid in orphans && orphans[mid].block.parentHash == up && Key(orphans[mid]) == mid
    requires mid == hash || Reachable(orphans, mid, orphans[hash].block)
    ensures Reachable(orphans, up, orphans[hash].block)
  {
    if mid != hash { ReachStep(orphans, mid, up, orphans[hash].block); }
  }

  ghost function HashSet(bs: seq<Block>): set<Hash> {
    set i | 0 <= i < |bs| :: Digest(bs[i])
  }

  /** Each block hangs from `hash` directly or from a block before it in the list. */
  ghost predicate ParentsFirst(hash: Hash, bs: seq<Block>) {
    forall i :: 0 <= i < |bs| ==> bs[i].parentHash == hash || bs[i].parentHash in HashSet(bs[..i])
  }

  lemma HashSetPush(bs: seq<Block>, b: Block)
    ensures HashSet(bs + [b]) == HashSet(bs) + {Digest(b)}
  {
    var more := bs + [b];
    forall h
      ensures h in HashSet(more) <==> h in HashSet(bs) + {Digest(b)}
    {
      if h in HashSet(bs) { var i :| 0 <= i < |bs| && Digest(bs[i]) == h; assert Digest(more[i]) == h; }
      if h == Digest(b) { assert Digest(more[|bs|]) == h; }
    }
  }

  lemma ParentsFirstPush(hash: Hash, bs: seq<Block>, b: Block)
    requires ParentsFirst(hash, bs) && (b.parentHash == hash || b.parentHash in HashSet(bs))
    ensures ParentsFirst(hash, bs + [b])
  {
    forall i | 0 <= i <= |bs|
      ensures (bs + [b])[i].parentHash == hash || (bs + [b])[i].parentHash in HashSet((bs + [b])[..i])
    {
      assert (bs + [b])[..i] == bs[..i];
      if i == |bs| { assert bs[..i] == bs; }
    }
  }

  /** A list of pool blocks with parents first holds only blocks reachable from `hash`. */
  lemma {:induction false} HandedIsReachable(orphans: map<Hash, Orphan>, hash: Hash, bs: seq<Block>, i: nat)
    requires ParentsFirst(hash, bs) && i < |bs| && forall j :: 0 <= j < |bs| ==> Digest(bs[j]) in orphans
    ensures Reachable(orphans, hash, bs[i])
    decreases i
  {
    if bs[i].parentHash != hash {
      var j :| 0 <= j < i && Digest(bs[..i][j]) == bs[i].parentHash;
      HandedIsReachable(orphans, hash, bs, j);
    }
  }

  /** If no block left over hangs from `hash` or from a block taken, none is reachable. */
  lemma {:induction false} RestIsUnreachable(orphans: map<Hash, Orphan>, hash: Hash, gone: set<Hash>, b: Block)
    requires Digest(b) in orphans && Digest(b) !in gone
    requires forall h :: h in orphans && h !in gone ==>
               Key(orphans[h]) == h && orphans[h].block.parentHash != hash && orphans[h].block.parentHash !in gone
    ensures !Reachable(orphans, hash, b)
    decreases b
  {
    assert orphans[Digest(b)].block == b;
    if b.parentHash.Digest? && b.parentHash in orphans { RestIsUnreachable(orphans, hash, gone, b.parentHash.block); }
  }

  /** `handed` came out of the pool `was` in order, leaving `orphans`. */
  ghost predicate Taken(was: map<Hash, Orphan>, orphans: map<Hash, Orphan>, hash: Hash, handed: seq<Block>) {
    && (forall h :: h in orphans <==> h in was && h !in HashSet(handed))
    && (forall h :: h in orphans ==> orphans[h] == was[h])
    && (forall i :: 0 <= i < |handed| ==> Digest(handed[i]) in was)
    && (forall i, j :: 0 <= i < j < |handed| ==> handed[i] != handed[j])
    && ParentsFirst(hash, handed)
  }

  /** Every hash whose children may still be in the pool is in `queue` or is `current`. */
  ghost predicate Pending(prev: map<Hash, seq<Orphan>>, hash: Hash, handed: seq<Block>, queue: seq<Hash>,
                          current: Option<Hash>) {
    && (forall x :: x in queue || current == Some(x) ==> x == hash || x in HashSet(handed))
    && (forall x :: x == hash || x in HashSet(handed) ==> x in queue || current == Some(x) || x !in prev)
  }

  lemma TakenPush(was: map<Hash, Orphan>, orphans: map<Hash, Orphan>, hash: Hash, handed: seq<Block>, o: Orphan)
    requires Taken(was, orphans, hash, handed) && Key(o) in orphans
    requires o.block.parentHash == hash || o.block.parentHash in HashSet(handed)
    ensures Taken(was, orphans - {Key(o)}, hash, handed + [o.block])
  {
    HashSetPush(handed, o.block);
    ParentsFirstPush(hash, handed, o.block);
    forall i | 0 <= i < |handed|
      ensures handed[i] != o.block
    {
      assert Digest(handed[i]) in HashSet(handed);
    }
  }

  lemma PendingPush(prev: map<Hash, seq<Orphan>>, hash: Hash, handed: seq<Block>,
                    queue: seq<Hash>, current: Hash, o: Orphan)
    requires Pending(prev, hash, handed, queue, Some(current)) && o.block.parentHash == current
    ensures Pending(SetGroup(prev, current, Without(Group(prev, current), Key(o))), hash, handed + [o.block],
                    queue + [Key(o)], Some(current))
    ensures current == hash || current in HashSet(handed)
  {
    hide Without;
    HashSetPush(handed, o.block);
    assert forall x :: x in queue + [Key(o)] <==> x in queue || x == Key(o);
  }

  /** The entries of a list that are still in the pool, in order. */
  function Left(os: seq<Orphan>, orphans: map<Hash, Orphan>): (r: seq<Orphan>)
    ensures forall o :: o in r <==> o in os && Key(o) in orphans
  {
    if os == [] then []
    else if Key(os[|os| - 1]) in orphans then Left(os[..|os| - 1], orphans) + [os[|os| - 1]]
    else Left(os[..|os| - 1], orphans)
  }

  lemma LeftStep(os: seq<Orphan>, o: Orphan, orphans: map<Hash, Orphan>)
    ensures Left(os + [o], orphans) == if Key(o) in orphans then Left(os, orphans) + [o] else Left(os, orphans)
  {
    assert (os + [o])[..|os|] == os;
  }

  /** Taking one more out leaves what is still in. */
  lemma {:induction false} LeftLess(os: seq<Orphan>, orphans: map<Hash, Orphan>, h: Hash)
    ensures Without(Left(os, orphans), h) == Left(os, orphans - {h})
  {
    hide Left, Without;
    if os == [] {
      LeftAll([], orphans);
      LeftAll([], orphans - {h});
      WithoutNone([], h);
    } else {
      var n := |os| - 1;
      assert os == os[..n] + [os[n]];
      LeftLess(os[..n], orphans, h);
      LeftStep(os[..n], os[n], orphans);
      LeftStep(os[..n], os[n], orphans - {h});
      WithoutPush(Left(os[..n], orphans), os[n], h);
    }
  }

  lemma {:induction false} LeftAll(os: seq<Orphan>, orphans: map<Hash, Orphan>)
    requires forall o :: o in os ==> Key(o) in orphans
    ensures Left(os, orphans) == os
  {
    if os != [] { LeftAll(os[..|os| - 1], orphans); }
  }

  /** Taking an orphan out of its group takes nothing out of the other groups. */
  lemma OthersLeft(orphans: map<Hash, Orphan>, prev: map<Hash, seq<Orphan>>, b: Block, p: Hash)
    requires Grouped(orphans, prev)
    ensures Group(SetGroup(prev, b.parentHash, Without(Group(prev, b.parentHash), Digest(b))), p) ==
            Left(Group(prev, p), orphans - {Digest(b)})
  {
    hide Without, Left;
    var os := Group(prev, p);
    LeftAll(os, orphans);
    LeftLess(os, orphans, Digest(b));
    if p != b.parentHash { WithoutNone(os, Digest(b)); }
  }

  lemma {:induction false} WithoutNone(os: seq<Orphan>, h: Hash)
    requires forall o :: o in os ==> Key(o) != h
    ensures Without(os, h) == os
  {
    if os != [] { WithoutNone(os[..|os| - 1], h); }
  }

  /** Every group of `now` is what is still in the pool of that group of `was`, in the same order. */
  ghost predicate InArrival(was: map<Hash, seq<Orphan>>, now: map<Hash, seq<Orphan>>, orphans: map<Hash, Orphan>) {
    forall p :: Group(now, p) == Left(Group(was, p), orphans)
  }

  lemma ArrivalNone(orphans: map<Hash, Orphan>, prev: map<Hash, seq<Orphan>>)
    requires Grouped(orphans, prev)
    ensures InArrival(prev, prev, orphans)
  {
    hide Left;
    forall p
      ensures Group(prev, p) == Left(Group(prev, p), orphans)
    {
      LeftAll(Group(prev, p), orphans);
    }
  }

  lemma ArrivalLess(was: map<Hash, seq<Orphan>>, orphans: map<Hash, Orphan>, prev: map<Hash, seq<Orphan>>, b: Block)
    requires Grouped(orphans, prev) && InArrival(was, prev, orphans)
    ensures InArrival(was, SetGroup(prev, b.parentHash, Without(Group(prev, b.parentHash), Digest(b))),
                      orphans - {Digest(b)})
  {
    hide Left, Without, SetGroup, Grouped, Group;
    var now := SetGroup(prev, b.parentHash, Without(Group(prev, b.parentHash), Digest(b)));
    forall p
      ensures Group(now, p) == Left(Group(was, p), orphans - {Digest(b)})
    {
      OthersLeft(orphans, prev, b, p);
      LeftTwice(Group(was, p), orphans, orphans - {Digest(b)});
    }
  }

  /** So it is, with `o` at the end of its group. */
  ghost predicate Appended(was: map<Hash, seq<Orphan>>, now: map<Hash, seq<Orphan>>, orphans: map<Hash, Orphan>,
                           o: Orphan) {
    forall p :: Group(now, p) == Left(Group(was, p), orphans) + if p == o.block.parentHash then [o] else []
  }

  lemma ArrivalMore(was: map<Hash, seq<Orphan>>, prev: map<Hash, seq<Orphan>>, orphans: map<Hash, Orphan>, o: Orphan)
    requires InArrival(was, prev, orphans)
    ensures Appended(was, prev[o.block.parentHash := Group(prev, o.block.parentHash) + [o]], orphans, o)
  {
    hide Left;
  }

  lemma {:induction false} LeftTwice(os: seq<Orphan>, more: map<Hash, Orphan>, fewer: map<Hash, Orphan>)
    requires fewer.Keys <= more.Keys
    ensures Left(Left(os, more), fewer) == Left(os, fewer)
  {
    hide Left;
    if os == [] {
      LeftAll([], more);
      LeftAll([], fewer);
    } else {
      var n := |os| - 1;
      assert os == os[..n] + [os[n]];
      LeftTwice(os[..n], more, fewer);
      LeftStep(os[..n], os[n], more);
      LeftStep(os[..n], os[n], fewer);
      LeftStep(Left(os[..n], more), os[n], fewer);
    }
  }

  /** Nothing but the first entry has its hash. */
  lemma WithoutFirst(os: seq<Orphan>)
    requires os != [] && DistinctKeys(os)
    ensures Without(os, Key(os[0])) == os[1..]
  {
    WithoutFrom(os, |os|);
    assert os[..|os|] == os;
  }

  lemma {:induction false} WithoutFrom(os: seq<Orphan>, n: nat)
    requires 1 <= n <= |os| && DistinctKeys(os)
    ensures Without(os[..n], Key(os[0])) == os[1..n]
  {
    hide DistinctKeys;
    WithoutStep(os, Key(os[0]), n - 1);
    if n > 1 {
      WithoutFrom(os, n - 1);
      assert Key(os[0]) != Key(os[n - 1]) by { DistinctAt(os, 0, n - 1); }
    }
  }

  lemma DistinctAt(os: seq<Orphan>, i: nat, j: nat)
    requires DistinctKeys(os) && i < j < |os|
    ensures Key(os[i]) != Key(os[j])
  {
  }

  function Keys(os: seq<Orphan>): (hs: seq<Hash>)
    ensures |hs| == |os|
    ensures forall i :: 0 <= i < |os| ==> hs[i] == Key(os[i])
  {
    seq(|os|, i requires 0 <= i < |os| => Key(os[i]))
  }

  function Children(os: seq<Orphan>): (bs: seq<Block>)
    ensures |bs| == |os|
    ensures forall i :: 0 <= i < |os| ==> bs[i] == os[i].block
  {
    seq(|os|, i requires 0 <= i < |os| => os[i].block)
  }

  /** Everything that hangs from the hashes in `queue`, breadth first; children of one block as they came in. */
  ghost function Order(prev: map<Hash, seq<Orphan>>, queue: seq<Hash>): seq<Block>
    decreases |prev|, |queue|
  {
    if queue == [] then []
    else
      var os := Group(prev, queue[0]);
      if queue[0] in prev then
        Fewer(prev, queue[0]);
        Children(os) + Order(prev - {queue[0]}, queue[1..] + Keys(os))
      else Order(prev, queue[1..])
  }

  lemma OrderNone(prev: map<Hash, seq<Orphan>>)
    ensures Order(prev, []) == []
  {
  }

  lemma Fewer(prev: map<Hash, seq<Orphan>>, h: Hash)
    requires h in prev
    ensures |prev - {h}| < |prev|
  {
    assert (prev - {h}).Keys == prev.Keys - {h};
  }

  /** What is left to hand over while the children of `current` are. */
  ghost function Ahead(prev: map<Hash, seq<Orphan>>, queue: seq<Hash>, current: Option<Hash>): seq<Block> {
    match current
    case None => Order(prev, queue)
    case Some(c) => Children(Group(prev, c)) + Order(prev - {c}, queue + Keys(Group(prev, c)))
  }

  lemma AheadNext(prev: map<Hash, seq<Orphan>>, queue: seq<Hash>)
    requires queue != []
    ensures Ahead(prev, queue, None) == Ahead(prev, queue[1..], Some(queue[0]))
  {
    var c := queue[0];
    if c !in prev { assert prev - {c} == prev && queue[1..] + Keys([]) == queue[1..]; }
  }

  lemma AheadDone(prev: map<Hash, seq<Orphan>>, queue: seq<Hash>, c: Hash)
    requires c !in prev
    ensures Ahead(prev, queue, Some(c)) == Ahead(prev, queue, None)
  {
    assert prev - {c} == prev && queue + Keys([]) == queue;
  }

  /** The first child is handed over and waits for its own children. */
  lemma AheadPush(prev: map<Hash, seq<Orphan>>, queue: seq<Hash>, c: Hash)
    requires c in prev && prev[c] != []
    ensures var o := prev[c][0];
            Ahead(prev, queue, Some(c)) ==
            [o.block] + Ahead(SetGroup(prev, c, prev[c][1..]), queue + [Key(o)], Some(c))
  {
    hide Order, Children, Keys, SetGroup;
    var os, prev' := prev[c], SetGroup(prev, c, prev[c][1..]);
    WithGroup(prev, c, os[1..]);
    FirstOfAll(os);
    assert queue + Keys(os) == queue + [Key(os[0])] + Keys(os[1..]);
    var rest := Order(prev - {c}, queue + Keys(os));
    assert [os[0].block] + Children(os[1..]) + rest == [os[0].block] + (Children(os[1..]) + rest);
  }

  lemma WithGroup(prev: map<Hash, seq<Orphan>>, c: Hash, os: seq<Orphan>)
    ensures SetGroup(prev, c, os) - {c} == prev - {c} && Group(SetGroup(prev, c, os), c) == os
  {
  }

  lemma FirstOfAll(os: seq<Orphan>)
    requires os != []
    ensures Children(os) == [os[0].block] + Children(os[1..]) && Keys(os) == [Key(os[0])] + Keys(os[1..])
  {
  }

  ghost predicate AllAccepted(accept: Block -> bool, bs: seq<Block>) {
    forall i :: 0 <= i < |bs| ==> accept(bs[i])
  }

  ghost predicate OnlyLastRefused(accept: Block -> bool, bs: seq<Block>) {
    bs != [] && AllAccepted(accept, bs[..|bs| - 1]) && !accept(bs[|bs| - 1])
  }

  lemma PendingNext(prev: map<Hash, seq<Orphan>>, hash: Hash, handed: seq<Block>, queue: seq<Hash>)
    requires Pending(prev, hash, handed, queue, None) && queue != []
    ensures Pending(prev, hash, handed, queue[1..], Some(queue[0]))
  {
    assert forall x :: x in queue <==> x == queue[0] || x in queue[1..];
  }

  lemma PendingDone(prev: map<Hash, seq<Orphan>>, hash: Hash, handed: seq<Block>, queue: seq<Hash>, current: Hash)
    requires Pending(prev, hash, handed, queue, Some(current)) && current !in prev
    ensures Pending(prev, hash, handed, queue, None)
  {
  }

  lemma Smaller(m: map<Hash, Orphan>, h: Hash)
    requires h in m
    ensures |m - {h}| == |m| - 1
  {
    assert (m - {h}).Keys == m.Keys - {h};
  }

  lemma NoLarger(m: map<Hash, Orphan>, h: Hash)
    ensures |m - {h}| <= |m|
  {
    if h in m { Smaller(m, h); } else { assert m - {h} == m; }
  }

  function Unexpired(orphans: map<Hash, Orphan>, now: int): map<Hash, Orphan> {
    map h | h in orphans && orphans[h].expiration >= now :: orphans[h]
  }

  /** The remembered orphan stays remembered: nothing left expires strictly before it. */
  ghost predicate Outlasts(oldest: Option<Orphan>, left: map<Hash, Orphan>) {
    if oldest.None? then left == map[] else forall h :: h in left ==> oldest.value.expiration <= left[h].expiration
  }

  /** What is remembered after a walk over the orphans left: the same as before if nothing expires strictly
      earlier, otherwise one of those that expire first. */
  ghost predicate Remembers(was: Option<Orphan>, now: Option<Orphan>, left: map<Hash, Orphan>) {
    && Outlasts(now, left)
    && if Outlasts(was, left) then now == was
       else now.Some? && Key(now.value) in left && left[Key(now.value)] == now.value
  }

  /** The same for the part of a walk that is done, with `todo` still to be looked at. */
  ghost predicate Walked(was: Option<Orphan>, now: Option<Orphan>, orphans: map<Hash, Orphan>, todo: set<Hash>) {
    && (forall h :: h in orphans && h !in todo ==> now.Some? && now.value.expiration <= orphans[h].expiration)
    && (now == was ||
        (&& now.Some? && Key(now.value) in orphans && Key(now.value) !in todo && orphans[Key(now.value)] == now.value
         && (was.Some? ==> now.value.expiration < was.value.expiration)))
  }

  lemma WalkedNone(oldest: Option<Orphan>, orphans: map<Hash, Orphan>)
    ensures Walked(oldest, oldest, orphans, orphans.Keys)
  {
  }

  lemma WalkedAll(was: Option<Orphan>, now: Option<Orphan>, orphans: map<Hash, Orphan>)
    requires Walked(was, now, orphans, {})
    ensures Remembers(was, now, orphans)
  {
    assert orphans == map[] || exists h :: h in orphans;
  }

  lemma WalkedStep(was: Option<Orphan>, now: Option<Orphan>, orphans: map<Hash, Orphan>, todo: set<Hash>, h: Hash)
    requires Walked(was, now, orphans, todo) && h in todo && h in orphans && Key(orphans[h]) == h
    ensures Walked(was, now, orphans - {h}, todo - {h})
    ensures var o := orphans[h];
            Walked(was, if now.None? || o.expiration < now.value.expiration then Some(o) else now, orphans, todo - {h})
  {
  }

  /** Adding an orphan leaves a pool within its limit within it: there is room, or what makes room
      is an orphan in the pool. */
  ghost predicate KeepsBound(orphans: map<Hash, Orphan>, oldest: Option<Orphan>, now: int) {
    var left := Unexpired(orphans, now);
    || |left| < MAX_ORPHAN_BLOCKS
    || oldest.None? || Key(oldest.value) in left
    || exists h :: h in left && left[h].expiration < oldest.value.expiration
  }

  lemma FewerLeft(orphans: map<Hash, Orphan>, now: int)
    ensures |Unexpired(orphans, now)| <= |orphans|
  {
    var left := Unexpired(orphans, now);
    assert left.Keys <= orphans.Keys;
    FewerKeys(left.Keys, orphans.Keys);
  }

  lemma {:induction false} FewerKeys(a: set<Hash>, b: set<Hash>)
    requires a <= b
    ensures |a| <= |b|
  {
    assert b == a + (b - a);
  }

  lemma OneMore(m: map<Hash, Orphan>, h: Hash, o: Orphan)
    requires h !in m
    ensures |m[h := o]| == |m| + 1
  {
    assert m[h := o].Keys == m.Keys + {h};
  }

  lemma SizeAfterAdd(left: map<Hash, Orphan>, gone: Hash, h: Hash, o: Orphan)
    requires h !in left
    ensures |left[h := o]| == |left| + 1
    ensures |(left - {gone})[h := o]| == if gone in left then |left| else |left| + 1
  {
    OneMore(left, h, o);
    if gone in left {
      Smaller(left, gone);
      OneMore(left - {gone}, h, o);
    } else {
      assert left - {gone} == left;
    }
  }

  /** Blocks that differ in height, waiting for an unknown parent. */
  function Waiting(n: nat): (m: map<Hash, Orphan>)
    ensures |m| == n && forall h :: h in m ==> h.Digest? && 0 <= h.block.height < n && m[h].expiration == 10
  {
    if n == 0 then map[]
    else
      var b := Block(Opaque(1), n - 1, 0, "", []);
      var m := Waiting(n - 1);
      assert m[Digest(b) := Orphan(b, 10)].Keys == m.Keys + {Digest(b)};
      m[Digest(b) := Orphan(b, 10)]
  }

  /** The limit fails for a full pool whose remembered orphan has left it, for example because its
      parent arrived, and expires before all others. */
  lemma StaleOldest()
    ensures var stale := Orphan(Block(Opaque(2), 0, 0, "", []), 5);
            !KeepsBound(Waiting(MAX_ORPHAN_BLOCKS), Some(stale), 0)
  {
    hide Waiting;
    var full, stale := Waiting(MAX_ORPHAN_BLOCKS), Orphan(Block(Opaque(2), 0, 0, "", []), 5);
    assert Unexpired(full, 0) == full;
    WaitingParents(MAX_ORPHAN_BLOCKS);
  }

  lemma {:induction false} WaitingParents(n: nat)
    ensures forall h :: h in Waiting(n) ==> h.Digest? && h.block.parentHash == Opaque(1)
  {
    if n > 0 { WaitingParents(n - 1); }
  }

  class OrphanPool {
    var orphans: map<Hash, Orphan>
    var prevOrphans: map<Hash, seq<Orphan>>
    var oldestOrphan: Option<Orphan>

    ghost predicate Valid()
      reads this
    {
      Grouped(orphans, prevOrphans)
    }

    /** At most one orphan too many, and then none is remembered as the oldest. */
    ghost predicate Bounded()
      reads this
    {
      && |orphans| <= MAX_ORPHAN_BLOCKS + 1
      && (|orphans| == MAX_ORPHAN_BLOCKS + 1 ==> oldestOrphan.None?)
    }

    constructor ()
      ensures Valid() && Bounded() && orphans == map[] && oldestOrphan == None
    {
      orphans, prevOrphans, oldestOrphan := map[], map[], None;
    }

    /** Remove the block with this orphan's hash; one that is no longer there is no problem. */
    method RemoveOrphanBlock(orphan: Orphan)
      requires Valid()
      modifies `orphans, `prevOrphans
      ensures Valid() && orphans == old(orphans) - {Key(orphan)}
      ensures prevOrphans == SetGroup(old(prevOrphans), orphan.block.parentHash,
                                      Without(Group(old(prevOrphans), orphan.block.parentHash), Key(orphan)))
      ensures |orphans| <= |old(orphans)| && (old(Bounded()) ==> Bounded())
    {
      hide Grouped, Without, SetGroup;
      NoLarger(orphans, Key(orphan));
      RemoveKeepsGroups(orphans, prevOrphans, orphan.block);
      orphans := orphans - {Key(orphan)};
      Ungroup(orphan.block.parentHash, Key(orphan));
    }

    /** Take a hash out of a group, and the group away if it is empty then. */
    method Ungroup(prev: Hash, hash: Hash)
      modifies `prevOrphans
      ensures prevOrphans == SetGroup(old(prevOrphans), prev, Without(Group(old(prevOrphans), prev), hash))
    {
      hide Without;
      var list := Drop(Group(prevOrphans, prev), hash);
      prevOrphans := prevOrphans[prev := list];
      if |prevOrphans[prev]| == 0 {
        prevOrphans := prevOrphans - {prev};
      }
      assert prevOrphans == SetGroup(old(prevOrphans), prev, list);
    }

    /** Drop expired orphans and remember the one that expires first. */
    method Expire(now: int)
      requires Valid()
      modifies this
      ensures Valid() && orphans == Unexpired(old(orphans), now)
      ensures Remembers(old(oldestOrphan), oldestOrphan, orphans)
      ensures InArrival(old(prevOrphans), prevOrphans, orphans)
    {
      hide Grouped, Walked, Remembers, InArrival, SetGroup, Without;
      var todo := orphans.Keys;
      WalkedNone(oldestOrphan, orphans);
      ArrivalNone(orphans, prevOrphans);
      while todo != {}
        invariant Valid() && todo <= orphans.Keys
        invariant forall h :: h in orphans <==> h in old(orphans) && (h in todo || old(orphans)[h].expiration >= now)
        invariant forall h :: h in orphans ==> orphans[h] == old(orphans)[h]
        invariant Walked(old(oldestOrphan), oldestOrphan, orphans, todo)
        invariant InArrival(old(prevOrphans), prevOrphans, orphans)
        decreases |todo|
      {
        var h :| h in todo;
        var o := orphans[h];
        KeyOf(h);
        WalkedStep(old(oldestOrphan), oldestOrphan, orphans, todo, h);
        todo := todo - {h};
        if now > o.expiration {
          ArrivalLess(old(prevOrphans), orphans, prevOrphans, o.block);
          RemoveOrphanBlock(o);
        } else if oldestOrphan.None? || o.expiration < oldestOrphan.value.expiration {
          oldestOrphan := Some(o);
        }
      }
      assert orphans == Unexpired(old(orphans), now);
      WalkedAll(old(oldestOrphan), oldestOrphan, orphans);
    }

    lemma KeyOf(h: Hash)
      requires Valid() && h in orphans
      ensures Key(orphans[h]) == h
    {
    }

    /** Add an orphan that is not yet known.  Expired ones go first; if the pool is still full, the
        remembered oldest one, `gone`, goes too: no orphan left expires before it.  It may have
        left the pool already, and then nothing makes room. */
    method AddOrphanBlock(block: Block, now: int, expiration: int) returns (ghost gone: Option<Orphan>)
      requires Valid() && Digest(block) !in orphans
      modifies this
      ensures Valid()
      ensures var left := Unexpired(old(orphans), now);
              && (gone.Some? <==> |left| + 1 > MAX_ORPHAN_BLOCKS)
              && Remembers(old(oldestOrphan), if gone.Some? then gone else oldestOrphan, left)
              && (gone.Some? ==> oldestOrphan == None)
              && orphans ==
                 (if gone.Some? then left - {Key(gone.value)} else left)[Digest(block) := Orphan(block, expiration)]
      ensures Appended(old(prevOrphans), prevOrphans, orphans - {Digest(block)}, Orphan(block, expiration))
      ensures |old(orphans)| <= MAX_ORPHAN_BLOCKS ==>
                (|orphans| <= MAX_ORPHAN_BLOCKS <==> KeepsBound(old(orphans), old(oldestOrphan), now))
      ensures old(Bounded()) ==> Bounded()
    {
      hide Grouped, InArrival, Appended, SetGroup, Without, Group;
      Expire(now);
      FewerLeft(old(orphans), now);
      SizeAfterAdd(orphans, if oldestOrphan.Some? then Key(oldestOrphan.value) else Digest(block), Digest(block),
                   Orphan(block, expiration));
      gone := None;
      if |orphans| + 1 > MAX_ORPHAN_BLOCKS {
        gone := oldestOrphan;
        ArrivalLess(old(prevOrphans), orphans, prevOrphans, oldestOrphan.value.block);
        RemoveOrphanBlock(oldestOrphan.value);
        oldestOrphan := None;
      }
      ghost var few := orphans;
      ArrivalMore(old(prevOrphans), prevOrphans, few, Orphan(block, expiration));
      InsertOrphan(Orphan(block, expiration));
      assert orphans - {Digest(block)} == few;
    }

    method InsertOrphan(o: Orphan)
      requires Valid() && Key(o) !in orphans
      modifies `orphans, `prevOrphans
      ensures Valid() && orphans == old(orphans)[Key(o) := o]
      ensures prevOrphans ==
              old(prevOrphans)[o.block.parentHash := Group(old(prevOrphans), o.block.parentHash) + [o]]
    {
      AddKeepsGroups(orphans, prevOrphans, o);
      orphans := orphans[Key(o) := o];
      prevOrphans := prevOrphans[o.block.parentHash := Group(prevOrphans, o.block.parentHash) + [o]];
    }

    /** The lowest pool ancestor of a pool block: the one whose parent is missing. */
    method GetOrphanRoot(hash: Hash) returns (root: Hash)
      requires Valid()
      ensures hash !in orphans ==> root == hash
      ensures hash in orphans ==> root in orphans && orphans[root].block.parentHash !in orphans
      ensures hash in orphans ==> root == hash || Reachable(orphans, root, orphans[hash].block)
    {
      root := hash;
      var prev := hash;
      while prev in orphans
        invariant root == hash || (root in orphans && hash in orphans && prev == orphans[root].block.parentHash)
        invariant root == hash ==> prev == hash || (hash in orphans && prev == orphans[hash].block.parentHash)
        invariant root != hash ==> Reachable(orphans, root, orphans[hash].block)
        invariant prev in orphans && prev != hash ==> hash in orphans && Reachable(orphans, prev, orphans[hash].block)
        decreases prev
      {
        var up := orphans[prev].block.parentHash;
        assert Key(orphans[prev]) == prev;
        if up in orphans { ReachableUp(orphans, hash, prev, up); }
        root := prev;
        prev := up;
      }
    }

    /** The state of the worklist. */
    ghost predicate Progress(was: map<Hash, Orphan>, hash: Hash, handed: seq<Block>, queue: seq<Hash>,
                             current: Option<Hash>)
      reads this
    {
      Valid() && Taken(was, orphans, hash, handed) && Pending(prevOrphans, hash, handed, queue, current)
    }

    /** What is not yet handed over of the groups `prev` comes next, and what stays keeps its order. */
    ghost predicate OnCourse(prev: map<Hash, seq<Orphan>>, hash: Hash, handed: seq<Block>, queue: seq<Hash>,
                             current: Option<Hash>)
      reads this
    {
      Order(prev, [hash]) == handed + Ahead(prevOrphans, queue, current) && InArrival(prev, prevOrphans, orphans)
    }

    lemma FirstChild(h: Hash)
      requires Valid() && h in prevOrphans
      ensures prevOrphans[h] != [] && DistinctKeys(prevOrphans[h])
      ensures prevOrphans[h][0].block.parentHash == h && Key(prevOrphans[h][0]) in orphans
    {
      assert GroupOk(orphans, h, prevOrphans[h]);
    }

    /** Take the first child of `current` out of the pool and hand it over. */
    method TakeChild(ghost was: map<Hash, Orphan>, ghost prev: map<Hash, seq<Orphan>>, ghost hash: Hash,
                     handed: seq<Block>, queue: seq<Hash>, current: Hash)
      returns (handed': seq<Block>, queue': seq<Hash>)
      requires Progress(was, hash, handed, queue, Some(current)) && current in prevOrphans
      requires OnCourse(prev, hash, handed, queue, Some(current))
      modifies `orphans, `prevOrphans
      ensures Progress(was, hash, handed', queue', Some(current)) && (old(Bounded()) ==> Bounded())
      ensures OnCourse(prev, hash, handed', queue', Some(current))
      ensures |handed'| == |handed| + 1 && handed'[..|handed|] == handed
      ensures |orphans| == |old(orphans)| - 1 && |queue'| == |queue| + 1
    {
      hide Taken, Pending, Without, DistinctKeys, HashSet, Ahead, SetGroup, Order, InArrival, Grouped;
      FirstChild(current);
      var orphan := prevOrphans[current][0];
      WithoutFirst(prevOrphans[current]);
      AheadPush(prevOrphans, queue, current);
      ArrivalLess(prev, orphans, prevOrphans, orphan.block);
      PendingPush(prevOrphans, hash, handed, queue, current, orphan);
      TakenPush(was, orphans, hash, handed, orphan);
      RemoveOrphanBlock(orphan);
      handed', queue' := handed + [orphan.block], queue + [Key(orphan)];
      Smaller(old(orphans), Key(orphan));
    }

    /** Hand over all children of `current`.  The loop counts up to the number of children it saw
        first; since each child is taken from the front, it only counts on when none is left. */
    method ProcessChildren(ghost was: map<Hash, Orphan>, ghost prev: map<Hash, seq<Orphan>>, ghost hash: Hash,
                           handed: seq<Block>, queue: seq<Hash>, current: Hash, accept: Block -> bool)
      returns (ok: bool, handed': seq<Block>, queue': seq<Hash>)
      requires Progress(was, hash, handed, queue, Some(current)) && AllAccepted(accept, handed)
      requires OnCourse(prev, hash, handed, queue, Some(current))
      modifies `orphans, `prevOrphans
      ensures ok ==>
                && Progress(was, hash, handed', queue', Some(current))
                && current !in prevOrphans && AllAccepted(accept, handed')
      ensures !ok ==> Valid() && Taken(was, orphans, hash, handed') && OnlyLastRefused(accept, handed')
      ensures |orphans| <= |old(orphans)| && (old(Bounded()) ==> Bounded())
      ensures OnCourse(prev, hash, handed', queue', Some(current))
      ensures ok ==> |orphans| + |queue'| == |old(orphans)| + |queue|
    {
      hide Taken, Pending, Without, DistinctKeys, HashSet, Grouped, OnCourse;
      handed', queue' := handed, queue;
      var count, i := |Group(prevOrphans, current)|, 0;
      EmptyGroupAbsent(current);
      while i < count
        invariant 0 <= i <= count && Progress(was, hash, handed', queue', Some(current)) && AllAccepted(accept, handed')
        invariant i == 0 || Group(prevOrphans, current) == []
        invariant count == 0 ==> Group(prevOrphans, current) == []
        invariant OnCourse(prev, hash, handed', queue', Some(current))
        invariant |orphans| <= |old(orphans)| && |orphans| + |queue'| == |old(orphans)| + |queue|
        invariant old(Bounded()) ==> Bounded()
        decreases |orphans|, count - i
      {
        EmptyGroupAbsent(current);
        if i >= |Group(prevOrphans, current)| {
          i := i + 1;
        } else {
          handed', queue' := TakeChild(was, prev, hash, handed', queue', current);
          if !accept(handed'[|handed'| - 1]) {
            return false, handed', queue';
          }
        }
      }
      EmptyGroupAbsent(current);
      return true, handed', queue';
    }

    lemma EmptyGroupAbsent(h: Hash)
      requires Valid()
      ensures Group(prevOrphans, h) == [] <==> h !in prevOrphans
    {
    }

    /** Hand every pool block that hangs from `hash` to `accept`, breadth first, parents before children and
        each once, and take it out of the pool; the first refusal ends it. */
    method ProcessOrphans(hash: Hash, accept: Block -> bool) returns (ok: bool, handed: seq<Block>)
      requires Valid()
      modifies `orphans, `prevOrphans
      ensures Valid() && Taken(old(orphans), orphans, hash, handed) && (old(Bounded()) ==> Bounded())
      ensures handed <= Order(old(prevOrphans), [hash]) && InArrival(old(prevOrphans), prevOrphans, orphans)
      ensures ok ==> AllAccepted(accept, handed) && handed == Order(old(prevOrphans), [hash])
      ensures !ok ==> OnlyLastRefused(accept, handed)
      ensures ok ==> forall h :: h in old(orphans) ==>
                (h in HashSet(handed) <==> Reachable(old(orphans), hash, old(orphans)[h].block))
    {
      hide Taken, Pending, Without, DistinctKeys, HashSet, Grouped, Reachable, Order, InArrival;
      handed := [];
      var queue := [hash];
      ghost var prev := prevOrphans;
      ArrivalNone(orphans, prevOrphans);
      StartProgress(hash);
      while queue != []
        invariant Progress(old(orphans), hash, handed, queue, None) && AllAccepted(accept, handed)
        invariant OnCourse(prev, hash, handed, queue, None)
        invariant old(Bounded()) ==> Bounded()
        decreases |orphans| + |queue|
      {
        PendingNext(prevOrphans, hash, handed, queue);
        AheadNext(prevOrphans, queue);
        var current := queue[0];
        queue := queue[1..];
        ok, handed, queue := ProcessChildren(old(orphans), prev, hash, handed, queue, current, accept);
        if !ok {
          return ok, handed;
        }
        PendingDone(prevOrphans, hash, handed, queue, current);
        AheadDone(prevOrphans, queue, current);
      }
      OrderNone(prevOrphans);
      HandedExactly(old(orphans), hash, handed);
      return true, handed;
    }

    lemma StartProgress(hash: Hash)
      requires Valid()
      ensures Progress(orphans, hash, [], [hash], None)
      ensures forall h :: h in orphans ==> Key(orphans[h]) == h
    {
    }

    lemma HandedExactly(was: map<Hash, Orphan>, hash: Hash, handed: seq<Block>)
      requires Progress(was, hash, handed, [], None)
      requires forall h :: h in was ==> Key(was[h]) == h
      ensures forall h :: h in was ==> (h in HashSet(handed) <==> Reachable(was, hash, was[h].block))
    {
      forall h | h in was
        ensures h in HashSet(handed) <==> Reachable(was, hash, was[h].block)
      {
        if h in HashSet(handed) {
          var i :| 0 <= i < |handed| && Digest(handed[i]) == h;
          HandedIsReachable(was, hash, handed, i);
        } else {
          forall x | x in was && x !in HashSet(handed)
            ensures was[x].block.parentHash != hash && was[x].block.parentHash !in HashSet(handed)
          {
            assert x in orphans && orphans[x] in Group(prevOrphans, orphans[x].block.parentHash);
          }
          RestIsUnreachable(was, hash, HashSet(handed), was[h].block);
        }
      }
    }
  }
}
