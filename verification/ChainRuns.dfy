/** Whole runs of fork choice: a node is offered blocks one after the other, parents before children, and ends on a
    heaviest of them. */
module ChainRuns {
  import opened Blocks
  import opened BlockStores
  import opened ChainViews
  import opened BlockChains

  // ----- What is offered -----

  /** The first block is a genesis block; every other one comes after its parent. */
  predicate FollowsParent(blocks: seq<Block>, i: nat)
    requires i < |blocks|
  {
    if i == 0 then blocks[0].height == 0 && blocks[0].parentHash == ZERO_HASH
    else exists j :: 0 <= j < i && blocks[i].parentHash == Digest(blocks[j]) && blocks[i].height == blocks[j].height + 1
  }

  /** So do all, and none comes twice. */
  ghost predicate InOrder(blocks: seq<Block>) {
    forall i :: 0 <= i < |blocks| ==> FollowsParent(blocks, i) && Digest(blocks[i]) !in DigestSet(blocks[..i])
  }

  /** Every block can be executed and undone. */
  ghost predicate NothingFails(env: Env) {
    forall b: Block :: Executes(env, b) && env.undo(b)
  }

  /** `best` ends at a heaviest of `blocks`. */
  ghost predicate Heaviest(best: seq<Block>, blocks: seq<Block>) {
    && (best == [] <==> blocks == [])
    && (blocks != [] ==> TipHash(best) in DigestSet(blocks) && Work(best) == TotalWork(TipHash(best)))
    && (forall i :: 0 <= i < |blocks| ==> TotalWork(Digest(blocks[i])) <= Work(best))
  }

  // ----- The node meanwhile -----

  /** The node `m` was never dropped; its block came from a peer, unless it is the pre-genesis node. */
  ghost predicate Kept(index: BlockIndex, m: BlockNode, n: nat)
    reads index, m
  {
    && Indexed(index, m) && m.height < n
    && if m.parent == null then m.height == -1 else m.source == Peer
  }

  /** Of the first `n` blocks no node was dropped, and the view reaches down to the pre-genesis node. */
  ghost predicate Complete(chain: BlockChain, n: nat)
    reads chain, chain.view, chain.index, chain.pool
  {
    && |chain.index.queue| <= n + 1
    && |chain.view.queue| == |chain.best| + 1
    && (forall m :: m in chain.pool ==> Kept(chain.index, m, n))
  }

  /** The node knows exactly the blocks offered. */
  ghost predicate Knows(chain: BlockChain, blocks: seq<Block>)
    reads chain.index, chain.store
  {
    chain.index.index.Keys == {ZERO_HASH} + DigestSet(blocks) && DigestSet(blocks) <= chain.store.db.td.Keys
  }

  /** The state after accepting `blocks`. */
  ghost predicate Serves(chain: BlockChain, blocks: seq<Block>)
    reads chain, chain.view, chain.index, chain.store, chain.pool
  {
    && chain.Valid() && chain.Healthy() && Maximal(chain.store.db, chain.best)
    && Complete(chain, |blocks|) && Knows(chain, blocks) && (chain.best == [] <==> blocks == [])
  }

  /** Only the first block has height 0. */
  lemma {:induction false} OnlyFirstIsGenesis(blocks: seq<Block>, i: nat)
    requires InOrder(blocks) && i < |blocks|
    ensures 0 <= blocks[i].height && (blocks[i].height == 0 <==> i == 0)
  {
    assert FollowsParent(blocks, i);
    if i > 0 {
      var j :| 0 <= j < i && blocks[i].parentHash == Digest(blocks[j]) && blocks[i].height == blocks[j].height + 1;
      OnlyFirstIsGenesis(blocks, j);
    }
  }

  /** So there is one node of height 0, and it is in view. */
  lemma GenesisInView(chain: BlockChain, blocks: seq<Block>, m: BlockNode)
    requires chain.Valid() && Complete(chain, |blocks|) && Knows(chain, blocks) && InOrder(blocks)
    requires m in chain.pool && m.height == 0 && chain.best != []
    ensures chain.view.InView(m)
  {
    hide Run, HoldsChain, ChainView.Valid, BlockIndex.Valid;
    chain.TipFacts();
    var root := chain.view.queue[|chain.best| - 1];
    forall x: BlockNode | x in {m, root}
      ensures x.hash == Digest(blocks[0]) && x.hash in chain.index.index && chain.index.index[x.hash] == x
    {
      assert Kept(chain.index, x, |blocks|) && NodeOk(x);
      var i :| 0 <= i < |blocks| && x.hash == Digest(blocks[i]);
      OnlyFirstIsGenesis(blocks, i);
    }
  }

  /** Every branch forks off in view, and its nodes came from peers. */
  lemma ForksInView(chain: BlockChain, blocks: seq<Block>, prev: BlockNode)
    requires chain.Valid() && Complete(chain, |blocks|) && Knows(chain, blocks) && InOrder(blocks)
    requires prev in chain.pool && chain.best != []
    ensures 0 <= prev.height ==> chain.view.InView(Fork(chain.view, chain.pool, prev))
    ensures forall m :: m in Side(chain.view, chain.pool, prev) ==> m.source == Peer
  {
    hide Run, Side, Fork, HoldsChain, ChainView.Valid, BlockIndex.Valid, Knows, InOrder;
    chain.TipFacts();
    SideFacts(chain.view, chain.pool, prev);
    var fork, side := Fork(chain.view, chain.pool, prev), Side(chain.view, chain.pool, prev);
    assert Kept(chain.index, fork, |blocks|);
    forall i | 0 <= i < |side|
      ensures side[i].source == Peer
    {
      assert side[i].parent == Under(fork, side, i) && Kept(chain.index, side[i], |blocks|);
    }
    if fork.parent == null && side != [] {
      assert ParentBelow(chain.pool, side[0]) && side[0].parent == Under(fork, side, 0);
      GenesisInView(chain, blocks, side[0]);
    }
  }

  /** Anything new can be offered, and nothing goes wrong. */
  lemma PeerAcceptable(chain: BlockChain, blocks: seq<Block>, block: Block, env: Env)
    requires chain.Valid() && Complete(chain, |blocks|) && Knows(chain, blocks) && InOrder(blocks)
    requires |blocks| + 1 < INDEX_CACHE_LIMIT && (chain.best == [] <==> blocks == [])
    requires Digest(block) !in DigestSet(blocks) && NothingFails(env)
    ensures chain.Acceptable(block, Peer, env) && chain.Smooth(block, env)
  {
    hide BlockChain.Valid, Side, Fork, Complete, Knows, InOrder;
    RoomLeft(chain, blocks, block);
    if block.parentHash in chain.index.index { PeerParent(chain, blocks, block, env); }
  }

  lemma RoomLeft(chain: BlockChain, blocks: seq<Block>, block: Block)
    requires Complete(chain, |blocks|) && Knows(chain, blocks) && |blocks| + 1 < INDEX_CACHE_LIMIT
    requires Digest(block) !in DigestSet(blocks)
    ensures Digest(block) !in chain.index.index && forall n :: !chain.Evicted(n)
  {
  }

  /** The side of a known parent. */
  lemma PeerSide(chain: BlockChain, blocks: seq<Block>, block: Block)
    requires chain.Valid() && Complete(chain, |blocks|) && Knows(chain, blocks) && InOrder(blocks)
    requires (chain.best == [] <==> blocks == []) && block.parentHash in chain.index.index
    ensures var prev := chain.index.index[block.parentHash];
            && prev in chain.pool
            && (chain.Compares(block) ==> chain.view.InView(Fork(chain.view, chain.pool, prev)))
            && (forall m :: m in Side(chain.view, chain.pool, prev) ==> m.source == Peer)
  {
    hide Run, Side, Fork, Complete, InOrder, DbInv;
    chain.IndexFacts(block.parentHash);
    chain.TipFacts();
    var prev := chain.index.index[block.parentHash];
    if chain.best == [] {
      chain.SideOfTip();
      assert Indexed(chain.index, chain.view.queue[0]);
      assert block.parentHash == ZERO_HASH;
    } else {
      ForksInView(chain, blocks, prev);
      if chain.Compares(block) {
        EveryRunKeepsInv(chain.store.saveSequence, chain.history);
        OnlyBlocks(chain.store.db);
        assert NodeOk(prev);
      }
    }
  }

  /** What the caller of `MaybeAcceptBlock` owes for the parent of the block. */
  lemma PeerParent(chain: BlockChain, blocks: seq<Block>, block: Block, env: Env)
    requires chain.Valid() && Complete(chain, |blocks|) && Knows(chain, blocks) && InOrder(blocks)
    requires (chain.best == [] <==> blocks == []) && block.parentHash in chain.index.index && NothingFails(env)
    requires forall n :: !chain.Evicted(n)
    ensures var prev := chain.index.index[block.parentHash];
            && prev in chain.pool && chain.FreshSide(prev, env) && chain.Settled(prev, env)
            && chain.Reliable(prev, block, env) && (chain.Compares(block) ==> chain.Forkable(prev))
  {
    hide BlockChain.Valid, Side, Fork, Complete, Knows, InOrder, BlockChain.Evicted, BlockChain.Compares, Executes;
    PeerSide(chain, blocks, block);
  }

  // ----- One block -----

  /** Executing the blocks of peers leaves the graph as it is. */
  lemma {:induction false} PeersSettle(g: Graph, nodes: seq<BlockNode>, blocks: seq<Block>, env: Env, n: nat)
    requires n <= |nodes| == |blocks| && forall m :: m in nodes ==> m.source == Peer
    ensures Settles(g, nodes, blocks, env, n) == g
  {
    if n > 0 { PeersSettle(g, nodes, blocks, env, n - 1); }
  }

  /** A view with room for all keeps all. */
  lemma {:induction false} RaisedAll(queue: seq<BlockNode>, nodes: seq<BlockNode>)
    requires |queue| + |nodes| <= BLOCK_NODE_CACHE_LIMIT
    ensures |Raised(queue, nodes)| == |queue| + |nodes|
  {
    if nodes != [] { RaisedAll(queue, nodes[..|nodes| - 1]); }
  }

  /** Moving onto blocks of peers does not change the graph. */
  lemma PeersLeave(o: Outlook, env: Env, d: nat, a: nat)
    requires Lands(o.table, o.best, o.fork, o.plan, o.held, env, d, a) && |o.side| == |o.held|
    requires |o.view| == |o.best| + 1 && forall m :: m in o.side ==> m.source == Peer
    ensures Leaves(o, env, d, a).graph == o.graph
    ensures |o.best| - d + a < BLOCK_NODE_CACHE_LIMIT ==> |Leaves(o, env, d, a).view| == |o.best| - d + a + 1
  {
    hide Leaves, Stops;
    if Loaded(o.table, o.held) {
      var off, base := |o.best| - 1 - o.fork, HashAt(o.best, o.fork);
      LeavesLoaded(o, env, d, a, off);
      PeersSettle(o.graph, o.side, o.held, env, if d < off then 0 else Tried(base, o.plan, o.held, a));
      if |o.best| - d + a < BLOCK_NODE_CACHE_LIMIT { RaisedAll(o.view[d..], o.side[..a]); }
    } else {
      LeavesUnloaded(o, env);
    }
  }

  /** One more node in the graph, with room in the index. */
  twostate lemma OneMoreNode(chain: BlockChain, new node: BlockNode, new prev: BlockNode, new hash: Hash, new n: nat)
    requires old(Complete(chain, n)) && hash !in old(chain.index.index) && prev in old(chain.pool)
    requires n + 1 < INDEX_CACHE_LIMIT && node.source == Peer && node.height == prev.height + 1
    requires node !in old(chain.pool) && chain.Snapshot() == Joined(old(chain.Snapshot()), node, prev, hash)
    ensures forall m :: m in chain.pool ==> Kept(chain.index, m, n + 1)
    ensures chain.index.index.Keys == old(chain.index.index.Keys) + {hash} && |chain.index.queue| <= n + 2
  {
    assert chain.index.index == old(chain.index.index)[hash := node];
    assert Links(chain.pool) == old(Links(chain.pool))[node := Link(prev, hash)];
    forall m | m in chain.pool
      ensures Kept(chain.index, m, n + 1)
    {
      assert m in Links(chain.pool) && Links(chain.pool)[m] == Link(m.parent, m.hash);
      if m != node { assert m in old(Links(chain.pool)) && old(Kept(chain.index, m, n)); }
      assert old(Kept(chain.index, prev, n));
    }
  }

  /** No batch takes a total difficulty away. */
  lemma {:induction false} TdStays(record: bool, before: seq<Step>, more: seq<Step>)
    requires Run(record, before + more).Some?
    ensures Run(record, before).Some?
    ensures Run(record, before).value.db.td.Keys <= Run(record, before + more).value.db.td.Keys
  {
    hide Run, Apply, Enabled;
    if more == [] {
      assert before + more == before;
    } else {
      var n := |more| - 1;
      assert before + more == (before + more[..n]) + [more[n]];
      RunPop(record, before + more[..n], more[n]);
      TdStays(record, before, more[..n]);
      TdStaysOnce(Run(record, before + more[..n]).value, more[n]);
    }
  }

  lemma TdStaysOnce(c: Chain, step: Step)
    requires Enabled(c, step)
    ensures c.db.td.Keys <= Apply(c, step).db.td.Keys
    ensures step.Store? ==> Digest(step.block) in Apply(c, step).db.td
  {
  }

  /** The blocks known after `block` was stored. */
  lemma StoredToo(record: bool, before: seq<Step>, block: Block, more: seq<Step>)
    requires Run(record, before + [Store(block)] + more).Some?
    ensures Run(record, before).Some?
    ensures Run(record, before).value.db.td.Keys + {Digest(block)} <=
            Run(record, before + [Store(block)] + more).value.db.td.Keys
  {
    hide Run, Apply, Enabled;
    TdStays(record, before + [Store(block)], more);
    RunPop(record, before, Store(block));
    TdStaysOnce(Run(record, before).value, Store(block));
  }

  lemma InOrderPrefix(blocks: seq<Block>, n: nat)
    requires InOrder(blocks) && n <= |blocks|
    ensures InOrder(blocks[..n])
  {
    var first := blocks[..n];
    forall i | 0 <= i < n
      ensures FollowsParent(first, i) && Digest(first[i]) !in DigestSet(first[..i])
    {
      assert FollowsParent(blocks, i) && first[..i] == blocks[..i];
      if i > 0 {
        var j :| 0 <= j < i && blocks[i].parentHash == Digest(blocks[j]) && blocks[i].height == blocks[j].height + 1;
        assert first[i].parentHash == Digest(first[j]) && first[i].height == first[j].height + 1;
      }
    }
  }

  lemma InOrderBefore(before: seq<Block>, block: Block)
    requires InOrder(before + [block])
    ensures InOrder(before) && FollowsParent(before + [block], |before|) && Digest(block) !in DigestSet(before)
  {
    var blocks := before + [block];
    InOrderPrefix(blocks, |before|);
    assert FollowsParent(blocks, |before|) && blocks[..|before|] == before;
  }

  /** The parent of the block is known, and its total difficulty. */
  lemma ParentKnown(chain: BlockChain, before: seq<Block>, block: Block, env: Env)
    requires Serves(chain, before) && InOrder(before + [block])
    ensures block.parentHash in chain.index.index && chain.Storable(block) && !chain.SecondGenesis(block)
    ensures chain.index.index[block.parentHash] in chain.pool
    ensures block.height == chain.index.index[block.parentHash].height + 1
    ensures before == [] ==> chain.Attempts(block, env)
  {
    hide Run, Complete, InOrder, Maximal;
    InOrderBefore(before, block);
    var blocks := before + [block];
    if before != [] {
      var j :| 0 <= j < |before| && block.parentHash == Digest(blocks[j]) && block.height == blocks[j].height + 1;
      OnlyFirstIsGenesis(before, j);
      assert Digest(before[j]) in DigestSet(before);
    }
    chain.IndexFacts(block.parentHash);
    assert NodeOk(chain.index.index[block.parentHash]);
  }

  /** What the move depends on, when every block came from a peer. */
  lemma PeerProspect(chain: BlockChain, before: seq<Block>, block: Block, env: Env)
    requires chain.Valid() && Complete(chain, |before|) && Knows(chain, before) && InOrder(before)
    requires (chain.best == [] <==> before == []) && block.parentHash in chain.index.index
    ensures var o := chain.Prospect(block, Peer, env);
            && o.graph == chain.Snapshot() && o.view == chain.view.queue && o.best == chain.best
            && |o.side| + 1 == |o.held| && (forall m :: m in o.side ==> m.source == Peer)
            && (forall d: nat, a: nat :: chain.Arrives(block, Peer, env, d, a) ==>
                  Lands(o.table, o.best, o.fork, o.plan, o.held, env, d, a))
  {
    hide BlockChain.Valid, Side, Fork, Complete, Knows, InOrder, Lands, BlockChain.Compares, BlockChain.Snapshot,
         BlockChain.PlanFrom;
    PeerSide(chain, before, block);
  }

  lemma DigestsPush(blocks: seq<Block>, block: Block)
    ensures DigestSet(blocks + [block]) == DigestSet(blocks) + {Digest(block)}
  {
    var more := blocks + [block];
    assert more[|blocks|] == block;
    forall i | 0 <= i < |blocks|
      ensures Digest(blocks[i]) in DigestSet(more)
    {
      assert more[i] == blocks[i];
    }
  }

  /** The total difficulties after accepting `block`. */
  lemma TdKnown(chain: BlockChain, was: Chain, before: seq<Step>, block: Block, d: nat, route: seq<Block>, a: nat)
    requires StoreOk(chain.store, chain.history, chain.best)
    requires Run(chain.store.saveSequence, before) == Some(was)
    requires || chain.history == before + [Store(block)]
             || Moved(was.best, before + [Store(block)], chain.best, chain.history, d, route, a)
    ensures was.db.td.Keys + {Digest(block)} <= chain.store.db.td.Keys
  {
    hide Run, ReorgSteps;
    if chain.history == before + [Store(block)] {
      assert chain.history == before + [Store(block)] + [];
      StoredToo(chain.store.saveSequence, before, block, []);
    } else {
      StoredToo(chain.store.saveSequence, before, block, ReorgSteps(d, route[..a]));
    }
  }

  lemma MovedLength(base: seq<Block>, before: seq<Step>, best: seq<Block>, history: seq<Step>, d: nat, plan: seq<Block>,
                    a: nat)
    requires Moved(base, before, best, history, d, plan, a)
    ensures |best| == |base| - d + a
  {
  }

  /** The chain is no longer than the blocks are many. */
  lemma ChainFits(chain: BlockChain, n: nat)
    requires chain.Valid() && forall m :: m in chain.pool ==> Kept(chain.index, m, n)
    ensures |chain.best| <= n && StoreOk(chain.store, chain.history, chain.best)
  {
    hide Run;
    chain.TipFacts();
    assert Kept(chain.index, chain.view.queue[0], n);
  }

  lemma ServesFacts(chain: BlockChain, blocks: seq<Block>)
    requires Serves(chain, blocks)
    ensures |chain.view.queue| == |chain.best| + 1 && StoreOk(chain.store, chain.history, chain.best)
    ensures chain.index.index.Keys == {ZERO_HASH} + DigestSet(blocks) && DigestSet(blocks) <= chain.store.db.td.Keys
  {
    hide BlockChain.Valid, Run, DigestSet;
    ChainFits(chain, |blocks|);
  }

  lemma ServesAll(chain: BlockChain, before: seq<Block>, block: Block, indexed: set<Hash>, known: set<Hash>)
    requires chain.Valid() && chain.Healthy() && Maximal(chain.store.db, chain.best) && chain.best != []
    requires |chain.index.queue| <= |before| + 2 && |chain.view.queue| == |chain.best| + 1
    requires forall m :: m in chain.pool ==> Kept(chain.index, m, |before| + 1)
    requires indexed == {ZERO_HASH} + DigestSet(before) && chain.index.index.Keys == indexed + {Digest(block)}
    requires DigestSet(before) <= known && known + {Digest(block)} <= chain.store.db.td.Keys
    ensures Serves(chain, before + [block])
  {
    hide BlockChain.Valid, BlockChain.Healthy, Maximal, Kept, DigestSet;
    DigestsPush(before, block);
  }

  /** Offer the next block: it is accepted, and the node ends on a heaviest chain again. */
  method Offer(chain: BlockChain, ghost before: seq<Block>, block: Block, env: Env) returns (err: Option<Error>)
    requires Serves(chain, before) && InOrder(before + [block]) && NothingFails(env)
    requires |before| + 1 < BLOCK_NODE_CACHE_LIMIT
    modifies chain, chain.view, chain.index, chain.store, chain.pool
    ensures err.None? && Serves(chain, before + [block])
    ensures old(chain.pool) <= chain.pool && fresh(chain.pool - old(chain.pool))
  {
    hide BlockChain.Valid, BlockChain.Healthy, BlockChain.Smooth, BlockChain.Acceptable, BlockChain.CanAccept,
         BlockChain.Arrives, BlockChain.Attempts, BlockChain.Route, BlockChain.Prospect, BlockChain.Snapshot,
         BlockChain.SecondGenesis, BlockChain.Evicted, Leaves, Joined, Lands, Kept, Maximal, Moved, InOrder,
         NothingFails, Carries, Finish, Work, TotalWork, TipHash, Run, DigestSet, Complete, Knows;
    ParentKnown(chain, before, block, env);
    InOrderBefore(before, block);
    PeerAcceptable(chain, before, block, env);
    PeerProspect(chain, before, block, env);
    ServesFacts(chain, before);
    ghost var o, prev := chain.Prospect(block, Peer, env), chain.index.index[block.parentHash];
    ghost var was, route := Chain(chain.store.db, chain.best), chain.Route(block, Peer, env);
    var isMain; ghost var stored, node, d, a;
    err, isMain, stored, node, d, a := chain.MaybeAcceptBlock(block, Peer, env);
    if old(chain.Attempts(block, env)) {
      PeersLeave(WithNode(o, node, prev, Digest(block)), env, d, a);
      MovedLength(o.best, old(chain.history) + [Store(block)], chain.best, chain.history, d, route, a);
    }
    OneMoreNode(chain, node, prev, Digest(block), |before|);
    ChainFits(chain, |before| + 1);
    TdKnown(chain, was, old(chain.history), block, d, route, a);
    ServesAll(chain, before, block, old(chain.index.index).Keys, was.db.td.Keys);
  }

  // ----- The whole run -----

  lemma ServesNothing(chain: BlockChain)
    requires chain.Valid() && chain.Healthy() && chain.best == [] && Maximal(chain.store.db, [])
    requires chain.index.index.Keys == {ZERO_HASH} && |chain.index.queue| == 1 && |chain.view.queue| == 1
    requires chain.pool == {chain.view.queue[0]} && chain.view.queue[0].parent == null
    ensures Serves(chain, [])
  {
    hide Run, BlockChain.Healthy, Maximal;
    chain.TipFacts();
    assert Indexed(chain.index, chain.view.queue[0]);
    assert Kept(chain.index, chain.view.queue[0], 0);
  }

  lemma ServesHeaviest(chain: BlockChain, blocks: seq<Block>)
    requires Serves(chain, blocks)
    ensures Heaviest(chain.best, blocks) && Linked(chain.best)
    ensures DigestSet(blocks) <= chain.index.index.Keys && DigestSet(blocks) <= chain.store.db.table.Keys
  {
    hide Run, BlockChain.Healthy, Complete, TotalWork, Work, Linked, MapsAgree, LogAgrees;
    chain.TipFacts();
    assert Indexed(chain.index, chain.view.queue[0]);
    EveryRunKeepsInv(chain.store.saveSequence, chain.history);
    LinkedIsAncestry(chain.best);
    forall i | 0 <= i < |blocks|
      ensures TotalWork(Digest(blocks[i])) <= Work(chain.best)
    {
      assert Digest(blocks[i]) in DigestSet(blocks);
      assert TdExactAt(chain.store.db.td, Digest(blocks[i]));
    }
  }

  /** Offer an empty node the blocks one after the other: it ends on a heaviest of them, and knows them all. */
  method Feed(blocks: seq<Block>, env: Env) returns (chain: BlockChain)
    requires InOrder(blocks) && NothingFails(env) && |blocks| < BLOCK_NODE_CACHE_LIMIT
    ensures chain.Valid() && Linked(chain.best) && Heaviest(chain.best, blocks)
    ensures DigestSet(blocks) <= chain.index.index.Keys && DigestSet(blocks) <= chain.store.db.table.Keys
  {
    hide BlockChain.Valid, BlockChain.Healthy, Maximal, Complete, Knows, InOrder, NothingFails, Heaviest, Linked,
         EmptyDb, DigestSet;
    chain := new BlockChain(true);
    ServesNothing(chain);
    for i := 0 to |blocks|
      invariant fresh(chain) && fresh(chain.view) && fresh(chain.index) && fresh(chain.store) && fresh(chain.pool)
      invariant Serves(chain, blocks[..i])
    {
      InOrderPrefix(blocks, i + 1);
      assert blocks[..i + 1] == blocks[..i] + [blocks[i]];
      var err := Offer(chain, blocks[..i], blocks[i], env);
    }
    assert blocks[..|blocks|] == blocks;
    ServesHeaviest(chain, blocks);
  }

  lemma NoDigests(blocks: seq<Block>)
    ensures DigestSet(blocks) == {} <==> blocks == []
  {
    if blocks != [] { assert Digest(blocks[0]) in DigestSet(blocks); }
  }

  ghost predicate NoTie(hashes: set<Hash>) {
    forall x, y :: x in hashes && y in hashes && TotalWork(x) == TotalWork(y) ==> x == y
  }

  /** Whatever the order, the chains have the same work, and without a tie they are the same chain. */
  lemma OrderDoesNotMatter(a: seq<Block>, first: seq<Block>, b: seq<Block>, second: seq<Block>)
    requires Heaviest(a, first) && Heaviest(b, second) && DigestSet(first) == DigestSet(second)
    requires Linked(a) && Linked(b)
    ensures Work(a) == Work(b)
    ensures NoTie(DigestSet(first)) ==> a == b
  {
    hide Work, TotalWork, Linked;
    NoDigests(first);
    NoDigests(second);
    if first != [] {
      var i :| 0 <= i < |first| && TipHash(a) == Digest(first[i]);
      assert Digest(first[i]) in DigestSet(second);
      var j :| 0 <= j < |second| && TipHash(b) == Digest(second[j]);
      if TipHash(a) == TipHash(b) { TipDeterminesChain(a, b); }
    }
  }

  /** Two branches on a genesis block: `a`, and `b` with `c`, which is lighter at first and heavier in the end. */
  ghost predicate Overtakes(g: Block, a: Block, b: Block, c: Block) {
    && g.height == 0 && g.parentHash == ZERO_HASH && a.parentHash == b.parentHash == Digest(g)
    && a.height == b.height == 1 && c.height == 2 && c.parentHash == Digest(b)
    && a != b && b.work <= a.work < b.work + c.work
  }

  lemma OvertakesInOrder(g: Block, a: Block, b: Block, c: Block)
    requires Overtakes(g, a, b, c)
    ensures InOrder([g, a, b, c])
  {
    var blocks := [g, a, b, c];
    assert blocks[..0] == [] && blocks[..1] == [g] && blocks[..2] == [g, a] && blocks[..3] == [g, a, b];
    assert blocks[1].parentHash == Digest(blocks[0]) && blocks[2].parentHash == Digest(blocks[0]);
    assert blocks[3].parentHash == Digest(blocks[2]);
  }

  lemma OvertakesHeaviest(g: Block, a: Block, b: Block, c: Block, best: seq<Block>)
    requires Overtakes(g, a, b, c) && Heaviest(best, [g, a, b, c]) && Linked(best)
    ensures best == [g, b, c]
  {
    hide Work, TotalWork;
    var blocks := [g, a, b, c];
    TotalWorkStep(g);
    TotalWorkStep(a);
    TotalWorkStep(b);
    TotalWorkStep(c);
    assert TotalWork(Digest(blocks[3])) <= Work(best);
    TipDeterminesChain(best, [g, b, c]);
  }

  /** The first block of that branch is accepted aside, and its second moves the chain onto both. */
  method BranchOvertakes(g: Block, a: Block, b: Block, c: Block, env: Env) returns (chain: BlockChain)
    requires Overtakes(g, a, b, c) && NothingFails(env)
    ensures chain.Valid() && chain.best == [g, b, c]
  {
    hide BlockChain.Valid, Overtakes, InOrder, Heaviest, NothingFails, Linked;
    OvertakesInOrder(g, a, b, c);
    chain := Feed([g, a, b, c], env);
    OvertakesHeaviest(g, a, b, c, chain.best);
  }
}
