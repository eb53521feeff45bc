/** Fork choice: accepting a block, connecting and disconnecting, and reorganising. */
module BlockChains {
  import opened Blocks
  import opened BlockStores
  import opened ChainViews

  datatype Error =
    | ErrParentBlockNoExist | ErrBlockHeightNoMatch | ErrHashNotExist | ErrParentTdNoExist
    | ErrBlockHashNoMatch | ErrExec | ErrLocalKV

  /** What executing a block gives.  `fault` says whether the failure is blamed on the block;
      `localKV` whether the executor then delivered the block's local key/value pairs. */
  datatype ExecOutcome = Rejected(fault: bool) | Executed(stateHash: string, txs: seq<Tx>, localKV: bool)

  /** The answers of the rest of the node during one call: block execution, undoing a block's
      local pairs, and whether a tie in total difficulty goes to the new block. */
  datatype Env = Env(exec: Block -> ExecOutcome, undo: Block -> bool, preferNew: bool)

  /** The block that is connected: a self-made block takes its final state and transactions
      from execution, any other block must come out unchanged. */
  function Finish(source: Source, b: Block, o: ExecOutcome): Block {
    if source.Self? && o.Executed? then b.(stateHash := o.stateHash, txs := o.txs) else b
  }

  /** The connected block `top` is the block `b` from `source`; a self-made one carries the state hash and the
      transactions that executing it gave. */
  ghost predicate Carries(top: Block, source: Source, b: Block, o: ExecOutcome) {
    && top.parentHash == b.parentHash && top.height == b.height && top.work == b.work
    && if source.Self? then o.Executed? && top.stateHash == o.stateHash && top.txs == o.txs else top == b
  }

  /** Finishing is what makes it so, once the block is executed. */
  lemma FinishCarries(top: Block, source: Source, b: Block, o: ExecOutcome)
    requires o.Executed?
    ensures Carries(top, source, b, o) <==> top == Finish(source, b, o)
  {
    assert top == Block(top.parentHash, top.height, top.work, top.stateHash, top.txs);
  }

  function HashAt(best: seq<Block>, height: int): Hash {
    if 0 <= height < |best| then Digest(best[height]) else ZERO_HASH
  }

  /** The database is the result of a run of legal steps that ends in `best`. */
  ghost predicate StoreOk(store: BlockStore, history: seq<Step>, best: seq<Block>)
    reads store
  {
    && Run(store.saveSequence, history) == Some(Chain(store.db, best))
    && store.db.record == store.saveSequence
    && store.height == |best| - 1
    && (best != [] ==> store.lastBlock == Some(best[|best| - 1]))
  }

  ghost predicate NodeOk(n: BlockNode)
    reads n
  {
    && (n.height == -1 ==> n.hash == ZERO_HASH)
    && (0 <= n.height ==> n.hash.Digest? && n.hash.block.height == n.height && n.hash.block.work == n.work)
  }

  ghost predicate NodesOk(pool: set<BlockNode>)
    reads pool
  {
    && Closed(pool)
    && (forall n :: n in pool ==> NodeOk(n))
  }

  /** The view is a suffix of the stored chain, ending at its tip. */
  ghost predicate ViewOk(view: ChainView, pool: set<BlockNode>, best: seq<Block>)
    reads view, pool
  {
    && InPool(view.queue, pool)
    && view.Valid()
    && view.queue != []
    && view.queue[0].height == |best| - 1
    && HoldsChain(view.queue, best)
  }

  ghost predicate InPool(queue: seq<BlockNode>, pool: set<BlockNode>) {
    forall i :: 0 <= i < |queue| ==> queue[i] in pool
  }

  /** Only blocks have total difficulties. */
  lemma OnlyBlocks(db: Db)
    requires TdExact(db)
    ensures forall h :: h in db.td ==> h.Digest?
  {
    forall h | h in db.td
      ensures h.Digest?
    {
      assert TdExactAt(db.td, h);
    }
  }

  /** The nodes carry the hashes of the chain from its tip downwards. */
  ghost predicate HoldsChain(queue: seq<BlockNode>, best: seq<Block>)
    reads queue
  {
    forall i :: 0 <= i < |queue| ==> queue[i].hash == HashAt(best, |best| - 1 - i)
  }

  ghost predicate Indexed(index: BlockIndex, n: BlockNode)
    reads index, n
  {
    n.hash in index.index && index.index[n.hash] == n
  }

  /** A node that still has its parent is the one indexed under its hash. */
  ghost predicate IndexOk(index: BlockIndex, pool: set<BlockNode>)
    reads index, pool
  {
    && InPool(index.queue, pool)
    && index.Valid()
    && |index.queue| <= INDEX_CACHE_LIMIT
    && (forall n :: n in pool && n.parent != null ==> Indexed(index, n))
  }

  /** No node in view has been dropped from the index. */
  ghost predicate ViewIndexed(index: BlockIndex, queue: seq<BlockNode>)
    reads index, queue
  {
    forall i :: 0 <= i < |queue| ==> Indexed(index, queue[i])
  }

  /** What holds of the nodes in view still holds of all but the tip, for the chain without its tip. */
  lemma ViewTail(queue: seq<BlockNode>, pool: set<BlockNode>, index: BlockIndex, best: seq<Block>)
    requires queue != [] && best != []
    requires InPool(queue, pool) && HoldsChain(queue, best) && ViewIndexed(index, queue)
    requires |queue| <= |best| + 1
    ensures InPool(queue[1..], pool) && HoldsChain(queue[1..], best[..|best| - 1]) && ViewIndexed(index, queue[1..])
  {
    var tail := queue[1..];
    assert forall i :: 0 <= i < |tail| ==> tail[i] == queue[i + 1];
  }

  /** It also holds with one more node in front, for the chain with that node's block on top. */
  lemma ViewPushed(queue: seq<BlockNode>, pool: set<BlockNode>, index: BlockIndex, best: seq<Block>, node: BlockNode,
                   b: Block)
    requires InPool(queue, pool) && HoldsChain(queue, best) && ViewIndexed(index, queue)
    requires node in pool && node.hash == Digest(b) && Indexed(index, node)
    ensures InPool(Newest([node] + queue), pool) && HoldsChain(Newest([node] + queue), best + [b])
    ensures ViewIndexed(index, Newest([node] + queue))
  {
    var longer := Newest([node] + queue);
    assert forall i :: 1 <= i < |longer| ==> longer[i] == queue[i - 1];
  }

  /** The nodes carry the hashes of the blocks. */
  ghost predicate Holds(nodes: seq<BlockNode>, blocks: seq<Block>)
    reads nodes
  {
    |blocks| == |nodes| && forall i :: 0 <= i < |nodes| ==> Digest(blocks[i]) == nodes[i].hash
  }

  /** Nodes that hang from `fork`, each one the parent of the next. */
  ghost predicate Branch(fork: BlockNode, nodes: seq<BlockNode>)
    reads nodes
  {
    forall i :: 0 <= i < |nodes| ==> nodes[i].parent == Under(fork, nodes, i)
  }

  /** `attach` is the first `i` nodes of `path`, backwards. */
  ghost predicate Reversed(attach: seq<BlockNode>, path: seq<BlockNode>, i: nat) {
    |attach| == i <= |path| && forall j :: 0 <= j < i ==> attach[j] == path[i - 1 - j]
  }

  lemma NothingReversed(path: seq<BlockNode>)
    ensures Reversed([], path, 0)
  {
  }

  lemma ReversedPush(attach: seq<BlockNode>, path: seq<BlockNode>, i: nat)
    requires Reversed(attach, path, i) && i < |path|
    ensures Reversed([path[i]] + attach, path, i + 1)
  {
  }

  ghost function Under(fork: BlockNode, nodes: seq<BlockNode>, i: nat): BlockNode
    requires i <= |nodes|
  {
    if i == 0 then fork else nodes[i - 1]
  }

  lemma BranchPush(fork: BlockNode, nodes: seq<BlockNode>, node: BlockNode)
    requires Branch(fork, nodes) && node.parent == Under(fork, nodes, |nodes|)
    ensures Branch(fork, nodes + [node])
  {
    var longer := nodes + [node];
    forall i | 0 <= i < |longer|
      ensures longer[i].parent == Under(fork, longer, i)
    {
      if i < |nodes| { assert nodes[i].parent == Under(fork, nodes, i); }
    }
  }

  /** `n` is stored and linked to its parent by hash, if it has one. */
  ghost predicate Anchored(table: map<Hash, Block>, pool: set<BlockNode>, n: BlockNode)
    reads n, pool
  {
    0 <= n.height && n.parent != null && n.parent in pool ==> n.hash in table && BlockOf(n).parentHash == n.parent.hash
  }

  /** Following the parents of `n`: the nodes that are not in view, lowest first. */
  ghost function Side(view: ChainView, pool: set<BlockNode>, n: BlockNode): (side: seq<BlockNode>)
    requires n in pool
    reads view, pool
    ensures forall i :: 0 <= i < |side| ==> side[i] in pool
    decreases n.height + 1
  {
    if view.InView(n) || n.parent == null || !ParentBelow(pool, n) then []
    else Side(view, pool, n.parent) + [n]
  }

  /** Where they end: the first node in view, if there is one. */
  ghost function Fork(view: ChainView, pool: set<BlockNode>, n: BlockNode): BlockNode
    requires n in pool
    reads view, pool
    decreases n.height + 1
  {
    if view.InView(n) || n.parent == null || !ParentBelow(pool, n) then n
    else Fork(view, pool, n.parent)
  }

  /** A branch of nodes out of view that hangs from a node in view, or from one without a parent, is the
      side of its end. */
  lemma {:induction false} SideIs(view: ChainView, pool: set<BlockNode>, fork: BlockNode, nodes: seq<BlockNode>)
    requires Closed(pool) && fork in pool && InPool(nodes, pool) && Branch(fork, nodes)
    requires view.InView(fork) || fork.parent == null
    requires forall i :: 0 <= i < |nodes| ==> !view.InView(nodes[i])
    ensures Under(fork, nodes, |nodes|) in pool
    ensures Side(view, pool, Under(fork, nodes, |nodes|)) == nodes
    ensures Fork(view, pool, Under(fork, nodes, |nodes|)) == fork
    decreases |nodes|
  {
    if nodes != [] {
      var m := |nodes| - 1;
      var below := nodes[..m];
      assert nodes[m].parent == Under(fork, nodes, m) == Under(fork, below, m);
      forall i | 0 <= i < m
        ensures below[i].parent == Under(fork, below, i)
      {
        assert nodes[i].parent == Under(fork, nodes, i);
      }
      SideIs(view, pool, fork, below);
      assert nodes == below + [nodes[m]];
    }
  }

  /** What a side is, whether or not it reaches the view. */
  lemma {:induction false} SideFacts(view: ChainView, pool: set<BlockNode>, n: BlockNode)
    requires Closed(pool) && n in pool
    ensures Fork(view, pool, n) in pool && InPool(Side(view, pool, n), pool)
    ensures view.InView(Fork(view, pool, n)) || Fork(view, pool, n).parent == null
    ensures Branch(Fork(view, pool, n), Side(view, pool, n))
    ensures forall i :: 0 <= i < |Side(view, pool, n)| ==> !view.InView(Side(view, pool, n)[i])
    ensures n == Under(Fork(view, pool, n), Side(view, pool, n), |Side(view, pool, n)|)
    ensures Fork(view, pool, n) in Path(pool, n)
    decreases n.height + 1
  {
    assert ParentBelow(pool, n);
    if !view.InView(n) && n.parent != null {
      assert ParentBelow(pool, n.parent);
      SideFacts(view, pool, n.parent);
      var fork, below, side := Fork(view, pool, n), Side(view, pool, n.parent), Side(view, pool, n);
      assert Path(pool, n)[1..] == Path(pool, n.parent);
      forall i | 0 <= i < |side|
        ensures side[i].parent == Under(fork, side, i)
      {
        if i < |below| { assert below[i].parent == Under(fork, below, i); }
      }
    }
  }

  /** A reorganisation as a run: take `n` blocks off, then put `blocks` on. */
  ghost function ReorgSteps(n: nat, blocks: seq<Block>): seq<Step> {
    seq(n, _ => Disconnect) + seq(|blocks|, i requires 0 <= i < |blocks| => Connect(blocks[i]))
  }

  /** One more planned block, as a chain and as a run. */
  lemma ReorgPush(base: seq<Block>, history: seq<Step>, n: nat, plan: seq<Block>, i: nat)
    requires i < |plan|
    ensures base + plan[..i] + [plan[i]] == base + plan[..i + 1]
    ensures history + ReorgSteps(n, plan[..i]) + [Connect(plan[i])] == history + ReorgSteps(n, plan[..i + 1])
  {
  }

  /** From chain `base` with run `before`, `d` blocks came off and the first `a` of `plan` went on. */
  ghost predicate Moved(base: seq<Block>, before: seq<Step>, best: seq<Block>, history: seq<Step>, d: nat,
                        plan: seq<Block>, a: nat) {
    && d <= |base| && a <= |plan|
    && best == base[..|base| - d] + plan[..a]
    && history == before + ReorgSteps(d, plan[..a])
  }

  lemma MovedDown(base: seq<Block>, before: seq<Step>, d: nat, plan: seq<Block>)
    requires d <= |base|
    ensures Moved(base, before, base[..|base| - d], before + ReorgSteps(d, []), d, plan, 0)
  {
    assert plan[..0] == [];
  }

  lemma MovedTip(base: seq<Block>, before: seq<Step>, best: seq<Block>, history: seq<Step>, d: nat, plan: seq<Block>,
                 a: nat)
    requires Moved(base, before, best, history, d, plan, a)
    ensures 0 < a ==> TipHash(best) == Digest(plan[a - 1])
  {
  }

  /** What is below stays. */
  lemma MovedAbove(base: seq<Block>, before: seq<Step>, best: seq<Block>, history: seq<Step>, d: nat, plan: seq<Block>,
                   a: nat)
    requires Moved(base, before, best, history, d, plan, a) && d < |base|
    ensures best != [] && best[0] == base[0]
  {
  }

  lemma MovedOne(base: seq<Block>, before: seq<Step>, b: Block)
    ensures Moved(base, before, base + [b], before + [Connect(b)], 0, [b], |[b]|)
    ensures TipHash(base + [b]) == Digest(b)
  {
    assert ReorgSteps(0, [b]) == [Connect(b)];
    assert [b][..1] == [b];
  }

  lemma MovedNowhere(base: seq<Block>, before: seq<Step>, plan: seq<Block>)
    ensures Moved(base, before, base, before, 0, plan, 0)
  {
  }

  lemma MovedUp(base: seq<Block>, before: seq<Step>, d: nat, plan: seq<Block>, a: nat)
    requires d <= |base| && a <= |plan|
    ensures Moved(base, before, base[..|base| - d] + plan[..a],
                  before + ReorgSteps(d, []) + ReorgSteps(0, plan[..a]), d, plan, a)
  {
  }

  /** One more block off, as a chain, as a run and as a view. */
  lemma DetachStep(base: seq<Block>, before: seq<Step>, queue: seq<BlockNode>, n: nat)
    requires n < |base| && n < |queue|
    ensures base[..|base| - n][..|base| - n - 1] == base[..|base| - (n + 1)]
    ensures before + ReorgSteps(n, []) + [Disconnect] == before + ReorgSteps(n + 1, [])
    ensures queue[n..][1..] == queue[n + 1..]
  {
  }

  lemma ReorgNone(base: seq<Block>, history: seq<Step>, plan: seq<Block>)
    ensures base + plan[..0] == base
    ensures history + ReorgSteps(0, plan[..0]) == history
  {
  }

  /** No stored block has more total work than the best chain's tip. */
  ghost predicate Maximal(db: Db, best: seq<Block>) {
    forall h :: h in db.td ==> db.td[h] <= Work(best)
  }

  /** No stored block above height 0 has. */
  ghost predicate Dominant(db: Db, best: seq<Block>) {
    forall h :: h in db.td && h.Digest? && h.block.height != 0 ==> db.td[h] <= Work(best)
  }

  /** A reorganisation stores total difficulties for the blocks it connects and for no others. */
  lemma {:induction false} TdAfterReorg(record: bool, before: seq<Step>, n: nat, bs: seq<Block>)
    requires Run(record, before + ReorgSteps(n, bs)).Some?
    ensures Run(record, before).Some?
    ensures forall h :: h in Run(record, before + ReorgSteps(n, bs)).value.db.td ==>
              h in Run(record, before).value.db.td || exists i :: 0 <= i < |bs| && h == Digest(bs[i])
    decreases |bs|, n
  {
    hide Run, Apply;
    var steps := before + ReorgSteps(n, bs);
    if bs != [] {
      var m := |bs| - 1;
      assert steps == before + ReorgSteps(n, bs[..m]) + [Connect(bs[m])];
      RunPop(record, before + ReorgSteps(n, bs[..m]), Connect(bs[m]));
      TdAfterReorg(record, before, n, bs[..m]);
    } else if 0 < n {
      assert steps == before + ReorgSteps(n - 1, bs) + [Disconnect];
      RunPop(record, before + ReorgSteps(n - 1, bs), Disconnect);
      TdAfterReorg(record, before, n - 1, bs);
    } else {
      assert steps == before;
    }
  }

  /** Storing a block and then moving the best chain keeps the tip maximal, if the tip ends up
      with no less work than before and no less than the stored block. */
  lemma {:induction false} MaximalAfter(record: bool, before: seq<Step>, c0: Chain, block: Block, c: Chain, d: nat,
                                        added: seq<Block>)
    requires Run(record, before) == Some(c0)
    requires Run(record, before + [Store(block)]).Some?
    requires Run(record, before + [Store(block)] + ReorgSteps(d, added)) == Some(c)
    requires |added| <= |c.best| && c.best[|c.best| - |added|..] == added
    requires Work(c0.best) <= Work(c.best) && TotalWork(Digest(block)) <= Work(c.best)
    ensures Maximal(c0.db, c0.best) ==> Maximal(c.db, c.best)
    ensures Dominant(c0.db, c0.best) ==> Dominant(c.db, c.best)
  {
    hide Run, Apply, MapsAgree, LogAgrees, TableExact, Linked, TotalWork, Work, ReorgSteps;
    var steps := before + [Store(block)];
    RunPop(record, before, Store(block));
    TdAfterReorg(record, steps, d, added);
    EveryRunKeepsInv(record, before);
    EveryRunKeepsInv(record, steps + ReorgSteps(d, added));
    forall h | h in c.db.td
      ensures c.db.td[h] <= Work(c.best) || (h in c0.db.td && c0.db.td[h] == c.db.td[h])
    {
      assert TdExactAt(c.db.td, h);
      if h in c0.db.td {
        assert TdExactAt(c0.db.td, h);
      } else if h != Digest(block) {
        var i :| 0 <= i < |added| && h == Digest(added[i]);
        var j := |c.best| - |added| + i;
        assert c.best[j] == added[i];
        WorkOnChain(c.best, j);
      }
    }
  }

  /** A block that is stored while the best chain stays keeps the tip maximal exactly if it has no
      more total work than the tip. */
  lemma StoreKeepsMaximalExactly(db: Db, best: seq<Block>, b: Block)
    requires TdExact(db) && Maximal(db, best) && (b.height == 0 || b.parentHash in db.td)
    ensures Maximal(StoreBatch(db, b), best) <==> TotalWork(Digest(b)) <= Work(best)
  {
    hide Work;
    TdComputed(db, b);
    assert Digest(b) in StoreBatch(db, b).td;
  }

  /** The blocks that connecting `blocks`, held by `nodes`, would put on the chain. */
  ghost function Plan(nodes: seq<BlockNode>, blocks: seq<Block>, env: Env): (plan: seq<Block>)
    requires |nodes| == |blocks|
    ensures |plan| == |blocks|
    ensures forall i :: 0 <= i < |plan| ==> plan[i] == Finish(nodes[i].source, blocks[i], env.exec(blocks[i]))
  {
    seq(|blocks|, i requires 0 <= i < |blocks| => Finish(nodes[i].source, blocks[i], env.exec(blocks[i])))
  }

  /** From one index to another: no hash is new except those in `more`, and the pre-genesis node stays. */
  ghost predicate Reindexed(was: map<Hash, BlockNode>, now: map<Hash, BlockNode>, more: set<Hash>) {
    now.Keys <= was.Keys + more && (ZERO_HASH in was ==> ZERO_HASH in now)
  }

  ghost function DigestSet(blocks: seq<Block>): set<Hash> {
    set i | 0 <= i < |blocks| :: Digest(blocks[i])
  }

  lemma NoneReindexed(was: map<Hash, BlockNode>, plan: seq<Block>)
    ensures Reindexed(was, was, DigestSet(plan))
  {
  }

  lemma OneReindexed(was: map<Hash, BlockNode>, mid: map<Hash, BlockNode>, now: map<Hash, BlockNode>,
                     plan: seq<Block>, n: nat)
    requires n < |plan| && Reindexed(was, mid, DigestSet(plan)) && Reindexed(mid, now, {Digest(plan[n])})
    ensures Reindexed(was, now, DigestSet(plan))
  {
    assert DigestSet(plan) + {Digest(plan[n])} == DigestSet(plan);
  }

  /** What a node points to, and the hash it carries. */
  datatype Link = Link(parent: BlockNode?, hash: Hash)

  /** The node graph and the index, as values. */
  datatype Graph = Graph(links: map<BlockNode, Link>, index: map<Hash, BlockNode>, queue: seq<BlockNode>)

  ghost function Links(pool: set<BlockNode>): map<BlockNode, Link>
    reads pool
  {
    map n | n in pool :: Link(n.parent, n.hash)
  }

  /** A node without its parent and out of the index. */
  ghost function CutOff(g: Graph, node: BlockNode): Graph {
    Graph(if node in g.links then g.links[node := g.links[node].(parent := null)] else g.links,
          map h | h in g.index && g.index[h] != node :: g.index[h],
          Except(g.queue, node))
  }

  /** A node under another hash. */
  ghost function Renamed(g: Graph, node: BlockNode, was: Hash, hash: Hash): Graph {
    Graph(if node in g.links then g.links[node := g.links[node].(hash := hash)] else g.links,
          (g.index - {was})[hash := node],
          g.queue)
  }

  /** One more node; a full index cuts its oldest node off. */
  ghost function Joined(g: Graph, node: BlockNode, prev: BlockNode, hash: Hash): Graph {
    var more := Graph(g.links[node := Link(prev, hash)], g.index[hash := node], g.queue + [node]);
    if |more.queue| > INDEX_CACHE_LIMIT then CutOff(more, more.queue[0]) else more
  }

  /** The new node is indexed, and so is every node but the one cut off. */
  lemma JoinedKeeps(g: Graph, node: BlockNode, prev: BlockNode, hash: Hash)
    requires node !in g.queue && hash !in g.index
    ensures var now := Joined(g, node, prev, hash);
            && hash in now.index && now.index[hash] == node
            && node in now.links && now.links[node] == Link(prev, hash)
            && forall h :: h in g.index && g.index[h] != node
                           && (|g.queue| >= INDEX_CACHE_LIMIT ==> g.index[h] != g.queue[0]) ==>
                             h in now.index && now.index[h] == g.index[h]
  {
    var queue := g.queue + [node];
    assert |queue| > INDEX_CACHE_LIMIT ==> queue[0] == g.queue[0] && queue[0] in g.queue;
  }

  /** A block that could not be executed may be tried again only if its node goes. */
  predicate Drops(source: Source, o: ExecOutcome) {
    o.Rejected? && (source.Download? || (source.Self? && !o.fault))
  }

  /** The graph after executing the block of a node: the node goes if it would block a retry, a self-made
      block's node takes its final hash, and any other stays as it is. */
  ghost function Entered(g: Graph, node: BlockNode, b: Block, env: Env): Graph {
    var o := env.exec(b);
    if Drops(node.source, o) then CutOff(g, node)
    else if o.Executed? && node.source.Self? then Renamed(g, node, Digest(b), Digest(Finish(Self, b, o)))
    else g
  }

  /** The graph after executing the first `n` blocks. */
  ghost function Settles(g: Graph, nodes: seq<BlockNode>, blocks: seq<Block>, env: Env, n: nat): Graph
    requires n <= |nodes| == |blocks|
  {
    if n == 0 then g else Entered(Settles(g, nodes, blocks, env, n - 1), nodes[n - 1], blocks[n - 1], env)
  }

  /** Executing `b` leaves it as it is or gives it a hash that is not yet used. */
  ghost predicate Fresh(used: map<Hash, BlockNode>, source: Source, b: Block, env: Env) {
    Finish(source, b, env.exec(b)) == b || Digest(Finish(source, b, env.exec(b))) !in used
  }

  /** So does executing each of these blocks from the `n`-th on. */
  ghost predicate FreshFrom(used: map<Hash, BlockNode>, nodes: seq<BlockNode>, blocks: seq<Block>, env: Env, n: nat)
    requires |nodes| == |blocks|
  {
    forall i :: n <= i < |nodes| ==> Fresh(used, nodes[i].source, blocks[i], env)
  }

  /** Using one more hash leaves the results for blocks of other heights fresh. */
  lemma StillFresh(used: map<Hash, BlockNode>, now: map<Hash, BlockNode>, nodes: seq<BlockNode>, blocks: seq<Block>,
                   env: Env, n: nat, b: Block)
    requires |nodes| == |blocks| && FreshFrom(used, nodes, blocks, env, n)
    requires now.Keys <= used.Keys + {Digest(b)}
    requires forall i :: n <= i < |nodes| ==> blocks[i].height != b.height
    ensures FreshFrom(now, nodes, blocks, env, n)
  {
  }

  /** Connecting a block leaves the results for the blocks above it fresh. */
  lemma FreshTail(used: map<Hash, BlockNode>, now: map<Hash, BlockNode>, nodes: seq<BlockNode>, blocks: seq<Block>,
                  env: Env, n: nat)
    requires n < |nodes| == |blocks| && FreshFrom(used, nodes, blocks, env, n)
    requires Reindexed(used, now, {Digest(Finish(nodes[n].source, blocks[n], env.exec(blocks[n])))})
    requires forall i :: n < i < |nodes| ==> blocks[i].height != blocks[n].height
    ensures FreshFrom(now, nodes, blocks, env, n + 1)
  {
    StillFresh(used, now, nodes, blocks, env, n + 1, Finish(nodes[n].source, blocks[n], env.exec(blocks[n])));
  }

  /** Indexing a block leaves its own result fresh, and those of the blocks below it. */
  lemma FreshPush(used: map<Hash, BlockNode>, now: map<Hash, BlockNode>, nodes: seq<BlockNode>, blocks: seq<Block>,
                  node: BlockNode, block: Block, env: Env)
    requires |nodes| == |blocks| && FreshFrom(used, nodes, blocks, env, 0) && Fresh(used, node.source, block, env)
    requires now.Keys <= used.Keys + {Digest(block)}
    requires forall i :: 0 <= i < |nodes| ==> blocks[i].height != block.height
    ensures FreshFrom(now, nodes + [node], blocks + [block], env, 0)
  {
    StillFresh(used, now, nodes, blocks, env, 0, block);
  }

  /** Executing `b` and then writing its indexes succeeds. */
  predicate Executes(env: Env, b: Block) {
    env.exec(b).Executed? && env.exec(b).localKV
  }

  /** How connecting `b` on top of a tip with hash `tip` fails, if it does. */
  function JoinFailure(env: Env, b: Block, tip: Hash): (err: Option<Error>)
    ensures err.None? <==> Executes(env, b) && b.parentHash == tip
  {
    if b.parentHash != tip then Some(ErrBlockHashNoMatch)
    else match env.exec(b)
      case Rejected(_) => Some(ErrExec)
      case Executed(_, _, localKV) => if localKV then None else Some(ErrLocalKV)
  }

  /** The `i`-th of `blocks` can go on: it executes, and its parent hash is the hash of what went
      on before it, `base` for the first one. */
  ghost predicate Joins(base: Hash, plan: seq<Block>, blocks: seq<Block>, env: Env, i: nat)
    requires i < |blocks| == |plan|
  {
    Executes(env, blocks[i]) && blocks[i].parentHash == if i == 0 then base else Digest(plan[i - 1])
  }

  lemma JoinsHere(base: Hash, plan: seq<Block>, blocks: seq<Block>, env: Env, i: nat)
    requires i < |blocks| == |plan|
    ensures Joins(base, plan, blocks, env, i) <==>
            Executes(env, blocks[i]) && blocks[i].parentHash == if i == 0 then base else Digest(plan[i - 1])
  {
  }

  /** So can the first `n` of them. */
  ghost predicate FirstJoin(base: Hash, plan: seq<Block>, blocks: seq<Block>, env: Env, n: nat)
    requires n <= |blocks| == |plan|
  {
    forall i :: 0 <= i < n ==> Joins(base, plan, blocks, env, i)
  }

  lemma FirstJoinPush(base: Hash, plan: seq<Block>, blocks: seq<Block>, env: Env, n: nat)
    requires n < |blocks| == |plan| && FirstJoin(base, plan, blocks, env, n) && Joins(base, plan, blocks, env, n)
    ensures FirstJoin(base, plan, blocks, env, n + 1)
  {
    hide Joins;
  }

  lemma FirstJoinNone(base: Hash, plan: seq<Block>, blocks: seq<Block>, env: Env)
    requires |blocks| == |plan|
    ensures FirstJoin(base, plan, blocks, env, 0)
  {
  }

  ghost predicate Attaches(base: Hash, plan: seq<Block>, blocks: seq<Block>, env: Env) {
    |plan| == |blocks| && FirstJoin(base, plan, blocks, env, |blocks|)
  }

  ghost predicate ParentIs(base: Hash, blocks: seq<Block>, i: nat)
    requires i < |blocks|
  {
    blocks[i].parentHash == if i == 0 then base else Digest(blocks[i - 1])
  }

  /** Each block has the hash of the one before it as parent hash, the first one `base`. */
  ghost predicate HashLinked(base: Hash, blocks: seq<Block>) {
    forall i {:trigger ParentIs(base, blocks, i)} :: 0 <= i < |blocks| ==> ParentIs(base, blocks, i)
  }

  lemma TipOfPlan(base: seq<Block>, plan: seq<Block>, n: nat)
    requires n <= |plan|
    ensures TipHash(base + plan[..n]) == if n == 0 then TipHash(base) else Digest(plan[n - 1])
  {
    if n == 0 { assert base + plan[..n] == base; }
  }

  /** Moving the chain from above height `fork` onto `blocks` meets no obstacle: what comes off can
      be undone, what goes on is stored and joins. */
  ghost predicate CanReorganize(table: map<Hash, Block>, best: seq<Block>, fork: int, plan: seq<Block>,
                                blocks: seq<Block>, env: Env) {
    && (forall i :: 0 <= i < |best| && fork < i ==> env.undo(best[i]))
    && Loaded(table, blocks)
    && Attaches(HashAt(best, fork), plan, blocks, env)
  }

  /** All blocks are stored. */
  ghost predicate Loaded(table: map<Hash, Block>, blocks: seq<Block>) {
    forall i :: 0 <= i < |blocks| ==> Digest(blocks[i]) in table
  }

  /** The two loops: of the blocks `off`, tip first, those before the first that cannot be undone come
      off; if that is all of them, the blocks before the first that does not join `base` go on. */
  ghost predicate Stops(off: seq<Block>, base: Hash, plan: seq<Block>, blocks: seq<Block>, env: Env, d: nat, a: nat) {
    && d <= |off| && a <= |plan| == |blocks|
    && (forall i :: 0 <= i < d ==> env.undo(off[i]))
    && if d < |off| then a == 0 && !env.undo(off[d])
       else FirstJoin(base, plan, blocks, env, a) && (a < |plan| ==> !Joins(base, plan, blocks, env, a))
  }

  /** How far moving the chain from above height `fork` onto `blocks` gets: nowhere unless all of them
      are stored, otherwise as far as the two loops do. */
  ghost predicate Lands(table: map<Hash, Block>, best: seq<Block>, fork: int, plan: seq<Block>,
                        blocks: seq<Block>, env: Env, d: nat, a: nat) {
    && -1 <= fork && fork + d < |best| && a <= |plan| == |blocks|
    && if Loaded(table, blocks) then Stops(Above(best, fork), HashAt(best, fork), plan, blocks, env, d, a)
       else d == 0 && a == 0
  }

  /** The hash that block `i` of a plan on top of `base` goes on. */
  ghost function Below(base: Hash, plan: seq<Block>, i: nat): Hash
    requires i <= |plan|
  {
    if i == 0 then base else Digest(plan[i - 1])
  }

  /** How many blocks are executed when `a` go on: one more, if the next has the right parent hash. */
  ghost function Tried(base: Hash, plan: seq<Block>, blocks: seq<Block>, a: nat): (n: nat)
    requires a <= |plan| == |blocks|
    ensures n <= |blocks|
  {
    if a < |blocks| && blocks[a].parentHash == Below(base, plan, a) then a + 1 else a
  }

  /** The error after `d` blocks came off and `a` went on. */
  ghost function StopFailure(off: nat, base: Hash, plan: seq<Block>, blocks: seq<Block>, env: Env, d: nat, a: nat):
    Option<Error>
    requires a <= |plan| == |blocks|
  {
    if d < off then Some(ErrLocalKV)
    else if a < |blocks| then JoinFailure(env, blocks[a], Below(base, plan, a))
    else None
  }

  lemma DetachStops(off: seq<Block>, base: Hash, plan: seq<Block>, blocks: seq<Block>, env: Env, d: nat)
    requires d < |off| && |plan| == |blocks| && (forall i :: 0 <= i < d ==> env.undo(off[i])) && !env.undo(off[d])
    ensures Stops(off, base, plan, blocks, env, d, 0)
    ensures StopFailure(|off|, base, plan, blocks, env, d, 0) == Some(ErrLocalKV)
  {
  }

  lemma AttachStops(off: seq<Block>, base: Hash, plan: seq<Block>, blocks: seq<Block>, env: Env, a: nat)
    requires a <= |plan| == |blocks| && (forall i :: 0 <= i < |off| ==> env.undo(off[i]))
    requires FirstJoin(base, plan, blocks, env, a) && (a < |plan| ==> !Joins(base, plan, blocks, env, a))
    ensures Stops(off, base, plan, blocks, env, |off|, a)
    ensures StopFailure(|off|, base, plan, blocks, env, |off|, a) == StopFailure(0, base, plan, blocks, env, 0, a)
    ensures StopFailure(|off|, base, plan, blocks, env, |off|, a).None? <==> a == |plan|
  {
    hide FirstJoin;
  }

  /** A view after nodes were put on it, one after the other. */
  ghost function Raised(queue: seq<BlockNode>, nodes: seq<BlockNode>): seq<BlockNode> {
    if nodes == [] then queue
    else var n := |nodes| - 1; Newest([nodes[n]] + Raised(queue, nodes[..n]))
  }

  lemma RaisedPush(queue: seq<BlockNode>, nodes: seq<BlockNode>, n: nat)
    requires n < |nodes|
    ensures Raised(queue, nodes[..n + 1]) == Newest([nodes[n]] + Raised(queue, nodes[..n]))
  {
    assert nodes[..n + 1][..n] == nodes[..n];
  }

  lemma RaisedNone(queue: seq<BlockNode>, nodes: seq<BlockNode>)
    ensures Raised(queue, nodes[..0]) == queue && Raised(queue[0..], nodes[..0]) == queue
  {
  }

  lemma SettlesPush(g: Graph, nodes: seq<BlockNode>, blocks: seq<Block>, env: Env, n: nat)
    requires n < |nodes| == |blocks|
    ensures Settles(g, nodes, blocks, env, n + 1) ==
            Entered(Settles(g, nodes, blocks, env, n), nodes[n], blocks[n], env)
  {
  }

  lemma SettlesNone(g: Graph, nodes: seq<BlockNode>, blocks: seq<Block>, env: Env)
    requires |nodes| == |blocks|
    ensures Settles(g, nodes, blocks, env, 0) == g
  {
  }

  /** Everything a move of the chain depends on: the graph and the view, the stored blocks and the best
      chain, the height of the fork, and the nodes to put on with their blocks and what these become. */
  datatype Outlook = Outlook(graph: Graph, view: seq<BlockNode>, table: map<Hash, Block>, best: seq<Block>, fork: int,
                             side: seq<BlockNode>, plan: seq<Block>, held: seq<Block>)

  /** What moving to a new node on top of `prev` depends on, once that node is there. */
  ghost function WithNode(o: Outlook, node: BlockNode, prev: BlockNode, hash: Hash): Outlook {
    o.(graph := Joined(o.graph, node, prev, hash), side := o.side + [node])
  }

  /** The graph and the view afterwards, and the answer. */
  datatype Aftermath = Aftermath(graph: Graph, view: seq<BlockNode>, err: Option<Error>)

  /** What a move leaves when `d` blocks come off and `a` go on. */
  ghost function Leaves(o: Outlook, env: Env, d: nat, a: nat): Aftermath {
    if !(-1 <= o.fork && o.fork + d < |o.best| && d <= |o.view| && a <= |o.side| == |o.held| == |o.plan|) then
      Aftermath(o.graph, o.view, None)
    else if !Loaded(o.table, o.held) then Aftermath(o.graph, o.view, Some(ErrHashNotExist))
    else
      var off, base := |o.best| - 1 - o.fork, HashAt(o.best, o.fork);
      Aftermath(Settles(o.graph, o.side, o.held, env, if d < off then 0 else Tried(base, o.plan, o.held, a)),
                Raised(o.view[d..], o.side[..a]),
                StopFailure(off, base, o.plan, o.held, env, d, a))
  }

  lemma LeavesUnloaded(o: Outlook, env: Env)
    requires -1 <= o.fork < |o.best| && |o.side| == |o.held| == |o.plan| && !Loaded(o.table, o.held)
    ensures Leaves(o, env, 0, 0) == Aftermath(o.graph, o.view, Some(ErrHashNotExist))
  {
    hide Settles, Raised, StopFailure, Tried;
  }

  lemma LeavesLoaded(o: Outlook, env: Env, d: nat, a: nat, off: nat)
    requires -1 <= o.fork && o.fork + d < |o.best| && d <= |o.view| && a <= |o.side| == |o.held| == |o.plan|
    requires Loaded(o.table, o.held) && off == |o.best| - 1 - o.fork
    ensures var base := HashAt(o.best, o.fork);
            Leaves(o, env, d, a) ==
            Aftermath(Settles(o.graph, o.side, o.held, env, if d < off then 0 else Tried(base, o.plan, o.held, a)),
                      Raised(o.view[d..], o.side[..a]),
                      StopFailure(off, base, o.plan, o.held, env, d, a))
  {
    hide Settles, Raised, StopFailure, Tried;
  }

  /** What connecting a block on top of the tip leaves. */
  lemma LeavesOnTip(o: Outlook, node: BlockNode, last: Block, block: Block, env: Env)
    requires o.fork == |o.best| - 1 && o.side == [node] && o.plan == [last] && o.held == [block]
    requires Digest(block) in o.table && block.parentHash == TipHash(o.best)
    ensures Leaves(o, env, 0, if Executes(env, block) then 1 else 0) ==
            Aftermath(Entered(o.graph, node, block, env),
                      if Executes(env, block) then Newest([node] + o.view) else o.view,
                      JoinFailure(env, block, block.parentHash))
  {
    hide Leaves, Entered, Newest;
    var a := if Executes(env, block) then 1 else 0;
    assert HashAt(o.best, o.fork) == TipHash(o.best);
    LeavesLoaded(o, env, 0, a, 0);
    SettlesPush(o.graph, o.side, o.held, env, 0);
    SettlesNone(o.graph, o.side, o.held, env);
    RaisedNone(o.view, o.side);
    RaisedPush(o.view, o.side, 0);
    assert o.view[0..] == o.view && o.side[..1] == o.side;
  }

  /** The blocks above height `fork`, tip first. */
  ghost function Above(best: seq<Block>, fork: int): (off: seq<Block>)
    requires -1 <= fork < |best|
    ensures |off| == |best| - 1 - fork
    ensures forall i :: 0 <= i < |off| ==> off[i] == best[|best| - 1 - i]
  {
    seq(|best| - 1 - fork, i requires 0 <= i < |best| - 1 - fork => best[|best| - 1 - i])
  }

  /** How far it gets is determined by the state before and by what executing and undoing answer. */
  lemma LandsOnce(table: map<Hash, Block>, best: seq<Block>, fork: int, plan: seq<Block>, blocks: seq<Block>,
                  env: Env, d: nat, a: nat, d': nat, a': nat)
    requires Lands(table, best, fork, plan, blocks, env, d, a) && Lands(table, best, fork, plan, blocks, env, d', a')
    ensures d == d' && a == a'
  {
    hide Joins;
  }

  /** It gets all the way exactly if there is no obstacle. */
  lemma LandsFully(table: map<Hash, Block>, best: seq<Block>, fork: int, plan: seq<Block>, blocks: seq<Block>,
                   env: Env, d: nat, a: nat)
    requires Lands(table, best, fork, plan, blocks, env, d, a)
    ensures CanReorganize(table, best, fork, plan, blocks, env) <==> fork + d + 1 == |best| && a == |plan|
  {
    hide Joins;
    if fork + d + 1 == |best| && a == |plan| {
      forall i | 0 <= i < |best| && fork < i
        ensures env.undo(best[i])
      {
        assert Above(best, fork)[|best| - 1 - i] == best[i];
      }
    }
  }

  lemma LandsLoaded(table: map<Hash, Block>, best: seq<Block>, fork: int, off: seq<Block>, plan: seq<Block>,
                    blocks: seq<Block>, env: Env, d: nat, a: nat)
    requires -1 <= fork < |best| && off == Above(best, fork) && Loaded(table, blocks)
    requires Stops(off, HashAt(best, fork), plan, blocks, env, d, a)
    ensures Lands(table, best, fork, plan, blocks, env, d, a)
  {
  }

  /** A block on top of the tip goes on exactly if it executes. */
  lemma LandsOnTip(table: map<Hash, Block>, best: seq<Block>, last: Block, block: Block, env: Env)
    requires Digest(block) in table && block.parentHash == TipHash(best)
    ensures Lands(table, best, |best| - 1, [last], [block], env, 0, if Executes(env, block) then 1 else 0)
  {
    assert HashAt(best, |best| - 1) == TipHash(best);
  }

  /** A block that does not extend the tip wins: by total work, or by preference in a tie at the
      tip's height. */
  ghost predicate Wins(best: seq<Block>, block: Block, env: Env) {
    || Work(best) < TotalWork(Digest(block))
    || (env.preferNew && Work(best) == TotalWork(Digest(block)) && block.height == |best| - 1)
  }

  /** Choosing between the best chain and the chain of `block`, which leaves it above height `fork`
      with `blocks`, meets no obstacle. */
  ghost predicate Chooses(table: map<Hash, Block>, tdKnown: bool, best: seq<Block>, block: Block, env: Env,
                          fork: int, plan: seq<Block>, blocks: seq<Block>) {
    if block.parentHash == TipHash(best) then Executes(env, block)
    else
      && best != [] && tdKnown
      && (Wins(best, block, env) ==> CanReorganize(table, best, fork, plan, blocks, env))
  }

  /** The block a node stands for. */
  ghost function BlockOf(n: BlockNode): Block
    reads n
  {
    if n.hash.Digest? then n.hash.block else NO_BLOCK
  }

  ghost function Held(nodes: seq<BlockNode>): (blocks: seq<Block>)
    reads nodes
    ensures |blocks| == |nodes|
    ensures forall i :: 0 <= i < |nodes| ==> blocks[i] == BlockOf(nodes[i])
  {
    seq(|nodes|, i requires 0 <= i < |nodes| reads nodes => BlockOf(nodes[i]))
  }

  lemma HeldBlocks(nodes: seq<BlockNode>, blocks: seq<Block>)
    requires Holds(nodes, blocks)
    ensures Held(nodes) == blocks
  {
  }

  lemma {:induction false} BranchHeight(pool: set<BlockNode>, fork: BlockNode, nodes: seq<BlockNode>, i: nat)
    requires NodesOk(pool) && Branch(fork, nodes) && InPool(nodes, pool) && i < |nodes|
    ensures nodes[i].height == fork.height + 1 + i
  {
    assert ParentBelow(pool, nodes[i]) && nodes[i].parent == Under(fork, nodes, i);
    if 0 < i { BranchHeight(pool, fork, nodes, i - 1); }
  }

  lemma BranchHeights(pool: set<BlockNode>, fork: BlockNode, nodes: seq<BlockNode>)
    requires NodesOk(pool) && Branch(fork, nodes) && InPool(nodes, pool)
    ensures forall i :: 0 <= i < |nodes| ==> nodes[i].height == fork.height + 1 + i
  {
    forall i | 0 <= i < |nodes|
      ensures nodes[i].height == fork.height + 1 + i
    {
      BranchHeight(pool, fork, nodes, i);
    }
  }

  const NO_BLOCK := Block(ZERO_HASH, 0, 0, "", [])

  class BlockChain {
    const view: ChainView
    const index: BlockIndex
    const store: BlockStore
    ghost var pool: set<BlockNode>   // every node made so far
    ghost var best: seq<Block>       // the best chain, from genesis to tip
    ghost var history: seq<Step>     // every batch written so far

    ghost predicate Valid()
      reads this, view, index, store, pool
    {
      && StoreOk(store, history, best)
      && NodesOk(pool)
      && ViewOk(view, pool, best)
      && IndexOk(index, pool)
      && ViewIndexed(index, view.queue)
    }

    /** The node graph and the index. */
    ghost function Snapshot(): Graph
      reads `pool, index, pool
    {
      Graph(Links(pool), index.index, index.queue)
    }

    ghost function Now(err: Option<Error>): Aftermath
      reads `pool, view, index, pool
    {
      Aftermath(Snapshot(), view.queue, err)
    }

    /** What moving the chain to the end of `side`, which leaves it above height `fork`, depends on. */
    ghost function OutlookVia(fork: int, side: seq<BlockNode>, env: Env): Outlook
      reads this, view, index, store, pool, side
    {
      Outlook(Snapshot(), view.queue, store.db.table, best, fork, side, Plan(side, Held(side), env), Held(side))
    }

    ghost function OutlookOn(node: BlockNode, env: Env): Outlook
      reads this, view, index, store, pool
      requires node in pool
    {
      OutlookVia(Fork(view, pool, node).height, Side(view, pool, node), env)
    }

    /** The start of an empty node: only the pre-genesis node. */
    constructor (record: bool)
      ensures Valid() && Healthy() && best == [] && history == [] && store.db == EmptyDb(record)
      ensures index.index.Keys == {ZERO_HASH} && |index.queue| == 1 && Maximal(store.db, best)
      ensures |view.queue| == 1 && pool == {view.queue[0]} && view.queue[0].parent == null
      ensures fresh(view) && fresh(index) && fresh(store) && fresh(pool)
    {
      hide Valid, Healthy, Maximal, EmptyDb, IsIndex, IsView;
      var pre := new BlockNode(null, ZERO_HASH, -1, 0, Self);
      view := new ChainView(pre);
      index := new BlockIndex(pre);
      store := new BlockStore(record);
      pool, best, history := {pre}, [], [];
      new;
      FreshStart(pre);
    }

    /** What holds of the pre-genesis node alone. */
    lemma FreshStart(pre: BlockNode)
      requires pool == {pre} && best == [] && history == []
      requires pre.parent == null && pre.hash == ZERO_HASH && pre.height == -1
      requires view.Valid() && view.queue == [pre]
      requires index.Valid() && index.queue == [pre] && index.index == map[ZERO_HASH := pre]
      requires store.db == EmptyDb(store.saveSequence) && store.height == -1 && store.lastBlock == None
      ensures Valid() && Healthy() && Maximal(store.db, best) && index.index.Keys == {ZERO_HASH}
    {
      assert ParentBelow(pool, pre);
      assert Anchored(store.db.table, pool, pre);
    }

    /** Every node that still has its parent is stored and has its parent's hash as parent hash. */
    ghost predicate Intact()
      reads `pool, store, pool
    {
      forall n {:trigger Anchored(store.db.table, pool, n)} :: n in pool ==> Anchored(store.db.table, pool, n)
    }

    /** No node has `n` as parent. */
    ghost predicate Leaf(n: BlockNode)
      reads `pool, pool
    {
      forall m :: m in pool ==> m.parent != n
    }

    /** Executing the block of `n` leaves it as it is, or nothing hangs from it. */
    ghost predicate SteadyAt(n: BlockNode, b: Block, env: Env)
      reads `pool, pool
    {
      Finish(n.source, b, env.exec(b)) == b || Leaf(n)
    }

    /** Executing these blocks changes none of them, except perhaps the last if nothing hangs from it. */
    ghost predicate Steady(nodes: seq<BlockNode>, blocks: seq<Block>, env: Env)
      reads `pool, pool
      requires |nodes| == |blocks|
    {
      forall i :: 0 <= i < |nodes| ==>
        Finish(nodes[i].source, blocks[i], env.exec(blocks[i])) == blocks[i] || (i == |nodes| - 1 && Leaf(nodes[i]))
    }

    // ----- Connecting -----

    /** What every run guarantees of the database, in the form the chain code uses. */
    lemma StoreFacts()
      requires StoreOk(store, history, best)
      ensures best != [] ==> TipHash(best) in store.db.td
      ensures best != [] ==> store.db.td[TipHash(best)] == Work(best)
      ensures store.db.record && store.db.lastSeq == -1 ==> best == []
      ensures forall i :: 0 <= i < |best| ==> best[i].height == i && Digest(best[i]) in store.db.table
      ensures forall h :: h in store.db.table ==> Digest(store.db.table[h]) == h
    {
      var db := store.db;
      EveryRunKeepsInv(db.record, history);
      assert DbInv(db, best);
      LinkedIsAncestry(best);
      if best != [] { assert TdExactAt(db.td, TipHash(best)); }
      forall i | 0 <= i < |best|
        ensures best[i].height == i
      {
        LinkedAt(best, i);
      }
      if db.record && db.lastSeq == -1 { assert Log(db) == []; }
    }

    static lemma ConnectedTable(db: Db, b: Block)
      requires b.height == 0 || b.parentHash in db.td
      ensures ConnectBatch(db, b).table == db.table[Digest(b) := b] && ConnectBatch(db, b).record == db.record
    {
    }

    /** Write the batch of a connected block and update the in-memory head. */
    method CommitBlock(block: Block)
      requires StoreOk(store, history, best) && Extends(best, block)
      modifies store, `best, `history
      ensures StoreOk(store, history, best) && best == old(best) + [block] && history == old(history) + [Connect(block)]
      ensures block.height == 0 || block.parentHash in old(store.db).td
      ensures store.db == ConnectBatch(old(store.db), block)
      ensures store.db.table == old(store.db).table[Digest(block) := block]
    {
      hide Run, ConnectBatch;
      StoreFacts();
      ConnectedTable(store.db, block);
      var batch, _ := store.SaveBlock(store.db, block);
      var td := block.work;
      if block.height != 0 {
        td := td + store.db.td[block.parentHash];
      }
      batch := batch.(td := batch.td[Digest(block) := td]);
      RunPush(store.saveSequence, history, Connect(block));
      store.db := batch;
      store.height := block.height;
      store.lastBlock := Some(block);
      best, history := best + [block], history + [Connect(block)];
    }

    /** Write the batch that takes the tip off.  Below the genesis block there is no block to become the
        last one. */
    method UncommitBlock(block: Block)
      requires StoreOk(store, history, best) && best != [] && block == best[|best| - 1]
      modifies store, `best, `history
      ensures StoreOk(store, history, best) && best == old(best)[..|old(best)| - 1]
      ensures history == old(history) + [Disconnect]
      ensures store.db == DisconnectBatch(old(store.db), block) && store.db.table == old(store.db).table
      ensures best == [] ==> store.lastBlock == old(store.lastBlock)
    {
      StoreFacts();
      var n := |best| - 1;
      EveryRunKeepsInv(store.saveSequence, history);
      LinkedAt(best, n);
      var batch, _ := store.DelBlock(store.db, block);
      RunPush(store.saveSequence, history, Disconnect);
      store.db := batch;
      store.height := store.db.lastHeight;
      store.UpdateLastBlock(block.parentHash);
      best, history := best[..n], history + [Disconnect];
    }

    /** A change of one node is one changed link. */
    twostate lemma OneLink(new node: BlockNode)
      requires pool == old(pool) && node in pool
      requires forall n :: n in pool && n != node ==> n.parent == old(n.parent) && n.hash == old(n.hash)
      ensures Links(pool) == old(Links(pool))[node := Link(node.parent, node.hash)]
    {
    }

    /** Taking a node's hash out of the index takes out the node. */
    lemma IndexWithoutNode(node: BlockNode)
      requires index.Valid() && Indexed(index, node)
      ensures (map h | h in index.index && index.index[h] != node :: index.index[h]) == index.index - {node.hash}
    {
    }

    lemma LinkAt(node: BlockNode)
      requires node in pool
      ensures node in Links(pool) && Links(pool)[node] == Link(node.parent, node.hash)
    {
    }

    /** Give a node its final hash and move its index entry. */
    method MoveEntry(node: BlockNode, block: Block)
      requires NodesOk(pool) && IndexOk(index, pool)
      requires node in pool && node.parent != null && 0 <= node.height
      requires block.height == node.height && block.work == node.work
      requires node.hash == Digest(block) || Digest(block) !in index.index
      modifies index, node`hash
      ensures NodesOk(pool) && IndexOk(index, pool)
      ensures node.hash == Digest(block)
      ensures index.index == (old(index.index) - {old(node.hash)})[node.hash := node] && index.queue == old(index.queue)
    {
      assert Indexed(index, node);
      var prev := node.hash;
      node.hash := Digest(block);
      ClosedKept(pool, pool);
      var _ := index.UpdateNode(prev, node);
    }

    /** Give a node that is not in view its final hash: that and its index entry is all that changes. */
    method Rehash(node: BlockNode, block: Block)
      requires NodesOk(pool) && IndexOk(index, pool)
      requires node in pool && node.parent != null && 0 <= node.height
      requires block.height == node.height && block.work == node.work
      requires node.hash == Digest(block) || Digest(block) !in index.index
      modifies index, node`hash
      ensures NodesOk(pool) && IndexOk(index, pool)
      ensures node.hash == Digest(block)
      ensures index.index == (old(index.index) - {old(node.hash)})[node.hash := node] && index.queue == old(index.queue)
      ensures Snapshot() == Renamed(old(Snapshot()), node, old(node.hash), Digest(block))
    {
      hide Links, NodesOk, IndexOk;
      LinkAt(node);
      MoveEntry(node, block);
      OneLink(node);
    }

    /** Changing a node that is not in view does not change what the view shows. */
    twostate lemma ViewUntouched(node: BlockNode)
      requires old(ViewOk(view, pool, best)) && old(ViewIndexed(index, view.queue))
      requires unchanged(view) && pool == old(pool) && best == old(best) && node !in view.queue
      requires forall n :: n in pool && n != node ==> n.hash == old(n.hash) && n.parent == old(n.parent)
      requires forall h :: h in old(index.index) && old(index.index)[h] != node ==>
                 h in index.index && index.index[h] == old(index.index)[h]
      ensures ViewOk(view, pool, best) && ViewIndexed(index, view.queue)
    {
      forall i | 0 <= i < |view.queue|
        ensures Indexed(index, view.queue[i])
      {
        assert old(Indexed(index, view.queue[i]));
      }
    }

    /** Take a node out of the index. */
    method RemoveEntry(node: BlockNode)
      requires NodesOk(pool) && IndexOk(index, pool)
      requires node in pool && Indexed(index, node)
      modifies index, node`parent
      ensures NodesOk(pool) && IndexOk(index, pool) && node.parent == null
      ensures index.index == old(index.index) - {node.hash} && |index.queue| < |old(index.queue)|
      ensures index.queue == Except(old(index.queue), node)
    {
      hide Except;
      index.DelNode(node.hash);
      ClosedKept(pool, pool);
    }

    /** Remove a node that could not be executed, if it would otherwise block a retry: it leaves the index
        and loses its parent, and nothing else changes. */
    method Forget(node: BlockNode)
      requires NodesOk(pool) && IndexOk(index, pool)
      requires node in pool && Indexed(index, node)
      modifies index, node`parent
      ensures NodesOk(pool) && IndexOk(index, pool)
      ensures index.index == old(index.index) - {node.hash} && |index.queue| < |old(index.queue)|
      ensures Snapshot() == CutOff(old(Snapshot()), node)
    {
      hide Links, Except, NodesOk, IsIndex;
      LinkAt(node);
      IndexWithoutNode(node);
      RemoveEntry(node);
      OneLink(node);
    }

    /** The facts about a node that is to become the tip. */
    lemma ChildOfTip(node: BlockNode)
      requires Valid() && node in pool && node.parent == view.queue[0]
      ensures node.height == view.queue[0].height + 1 == |best| && node !in view.queue
      ensures Indexed(index, node) && NodeOk(node)
      ensures view.queue[0].hash == TipHash(best)
    {
      assert ParentBelow(pool, node);
    }

    /** The facts about the tip. */
    lemma TipFacts()
      requires Valid()
      ensures view.queue != []
      ensures NodeOk(view.queue[0]) && view.queue[0].hash == TipHash(best)
      ensures |view.queue| <= |best| + 1
      ensures forall i :: 0 <= i < |view.queue| ==> view.queue[i].height == |best| - 1 - i
      ensures StoreOk(store, history, best) && NodesOk(pool)
    {
      assert ParentBelow(pool, view.queue[|view.queue| - 1]);
    }

    /** Write `block`, held by `node`, on top of the best chain and make `node` the tip. */
    method PushTip(node: BlockNode, block: Block)
      requires Valid() && node in pool && node.parent == view.queue[0]
      requires node.hash == Digest(block) && Extends(best, block)
      modifies store, view, `best, `history
      ensures Valid()
      ensures best == old(best) + [block] && history == old(history) + [Connect(block)]
      ensures view.queue[0] == node && store.db.table == old(store.db).table[Digest(block) := block]
      ensures view.queue == Newest([node] + old(view.queue))
    {
      hide Run, BlockIndex.Valid, Closed, IndexOk, NodesOk, InPool, HoldsChain, ViewIndexed, ConnectBatch,
           ChainView.Valid, StoreOk;
      ChildOfTip(node);
      ViewPushed(view.queue, pool, index, best, node, block);
      CommitBlock(block);
      view.SetTip(node);
    }

    /** Take the tip off the stored chain and off the view. */
    method PopTip(node: BlockNode, block: Block)
      requires Valid() && 2 <= |view.queue| && node == view.queue[0]
      requires node.hash == Digest(block)
      modifies store, view, `best, `history
      ensures Valid()
      ensures best == old(best)[..|old(best)| - 1] && history == old(history) + [Disconnect]
      ensures view.queue == old(view.queue)[1..] && store.db.table == old(store.db).table
    {
      hide Run, BlockIndex.Valid, Closed, IndexOk, NodesOk, InPool, HoldsChain, ViewIndexed, StoreOk, DisconnectBatch,
           ChainView.Valid;
      TipFacts();
      ViewTail(view.queue, pool, index, best);
      UncommitBlock(block);
      view.DelTip(node);
    }

    /** What the attempt to connect `block` (held by `node`) will do: the block that joins the
        chain, if its parent hash is the tip's and execution and local indexing succeed. */
    ghost function Connectable(source: Source, block: Block, env: Env): Option<Block>
      reads this
    {
      var o := env.exec(block);
      if block.parentHash == TipHash(best) && o.Executed? && o.localKV then Some(Finish(source, block, o)) else None
    }

    /** Execute `node`'s block on top of the tip and make it the new tip.  Whatever goes wrong,
        the best chain, the database and the view stay as they were. */
    method ConnectBlock(node: BlockNode, block: Block, env: Env) returns (err: Option<Error>)
      requires Valid() && node in pool && node.hash == Digest(block) && Fresh(index.index, node.source, block, env)
      requires block.parentHash == view.queue[0].hash ==> node.parent == view.queue[0]
      modifies store, view, index, node, `best, `history
      ensures Valid()
      ensures Reindexed(old(index.index), index.index, {Digest(Finish(node.source, block, env.exec(block)))})
      ensures |index.queue| <= |old(index.queue)|
      ensures err == JoinFailure(env, block, TipHash(old(best)))
      ensures Snapshot() == if block.parentHash == TipHash(old(best)) then Entered(old(Snapshot()), node, block, env)
                            else old(Snapshot())
      ensures err.None? <==> old(Connectable(node.source, block, env)).Some?
      ensures err.None? ==>
                var b := old(Connectable(node.source, block, env)).value;
                && view.queue == Newest([node] + old(view.queue))
                && best == old(best) + [b] && history == old(history) + [Connect(b)]
                && view.queue[0] == node && node.parent == old(node.parent) && node.hash == Digest(b)
                && store.db.table == old(store.db).table[Digest(b) := b]
      ensures err.Some? ==>
                && best == old(best) && history == old(history) && store.db == old(store.db)
                && view.queue == old(view.queue)
    {
      hide Run, BlockIndex.Valid, Closed, IndexOk, NodesOk, InPool, HoldsChain, ViewIndexed, ChainView.Valid, CutOff,
           Renamed, Links;
      TipFacts();
      if block.parentHash != view.queue[0].hash {
        return Some(ErrBlockHashNoMatch);
      }
      ChildOfTip(node);
      var outcome := env.exec(block);
      if outcome.Rejected? {
        if node.source.Download? || (!outcome.fault && node.source.Self?) {
          Forget(node);
          ViewUntouched(node);
        }
        return Some(ErrExec);
      }
      var detail := Finish(node.source, block, outcome);
      if node.source.Self? {
        Rehash(node, detail);
        ViewUntouched(node);
      }
      if !outcome.localKV {
        return Some(ErrLocalKV);
      }
      PushTip(node, detail);
      return None;
    }

    /** Take the tip off the best chain; a node that is not the tip is refused. */
    method DisconnectBlock(node: BlockNode, block: Block, env: Env) returns (err: Option<Error>)
      requires Valid() && 2 <= |view.queue| && node.hash == Digest(block)
      requires node.hash == view.queue[0].hash ==> node == view.queue[0]
      modifies store, view, `best, `history
      ensures Valid()
      ensures err == if node != old(view.queue)[0] then Some(ErrBlockHashNoMatch)
                     else if env.undo(block) then None else Some(ErrLocalKV)
      ensures err.None? ==>
                && best == old(best)[..|old(best)| - 1] && history == old(history) + [Disconnect]
                && view.queue == old(view.queue)[1..] && store.db.table == old(store.db).table
      ensures err.Some? ==>
                && best == old(best) && history == old(history) && store.db == old(store.db)
                && view.queue == old(view.queue)
    {
      if node.hash != view.queue[0].hash {
        return Some(ErrBlockHashNoMatch);
      }
      if !env.undo(block) {
        return Some(ErrLocalKV);
      }
      PopTip(node, block);
      return None;
    }

    // ----- Reorganising -----

    /** The parent path from `node` down to just above `fork`, lowest node first. */
    method BranchTo(node: BlockNode, fork: BlockNode) returns (attach: seq<BlockNode>)
      requires Closed(pool) && node in pool && fork in Path(pool, node)
      ensures Branch(fork, attach) && InPool(attach, pool)
      ensures node == if attach == [] then fork else attach[|attach| - 1]
      ensures forall j :: 0 <= j < |attach| ==> attach[j] in Path(pool, node) && fork.height < attach[j].height
    {
      hide Path, Closed, Reversed, Branch, InPool;
      ghost var path := Path(pool, node);
      PathFacts(pool, node);
      ghost var f :| 0 <= f < |path| && path[f] == fork;
      attach := [];
      NothingReversed(path);
      var n: BlockNode? := node;
      ghost var i := 0;
      while n != null && n != fork
        invariant 0 <= i <= f && Reversed(attach, path, i)
        invariant n == NodeAt(path, i)
        decreases |path| - i
      {
        assert path[i].parent == NodeAt(path, i + 1);
        ReversedPush(attach, path, i);
        attach := [n] + attach;
        n := n.parent;
        i := i + 1;
      }
      BranchOfPath(node, i, attach);
    }

    lemma BranchOfPath(node: BlockNode, i: nat, attach: seq<BlockNode>)
      requires Closed(pool) && node in pool && i < |Path(pool, node)| && Reversed(attach, Path(pool, node), i)
      ensures Branch(Path(pool, node)[i], attach) && InPool(attach, pool)
      ensures node == if attach == [] then Path(pool, node)[i] else attach[|attach| - 1]
      ensures forall j :: 0 <= j < |attach| ==>
                attach[j] in Path(pool, node) && Path(pool, node)[i].height < attach[j].height
    {
      hide Closed;
      PathFacts(pool, node);
      var path := Path(pool, node);
      assert path[0] == node;
      hide Path;
      forall j | 0 <= j < |attach|
        ensures attach[j].parent == Under(path[i], attach, j)
      {
        assert path[i - 1 - j].parent == NodeAt(path, i - 1 - j + 1);
      }
    }

    /** The view from the tip down to just above the node at position `k`. */
    method ViewAbove(fork: BlockNode, ghost k: nat) returns (detach: seq<BlockNode>)
      requires view.Valid() && k < |view.queue| && view.queue[k] == fork
      ensures detach == view.queue[..k]
    {
      var n := view.Tip();
      detach := [];
      while n != null && n != fork
        invariant |detach| <= k && detach == view.queue[..|detach|]
        invariant n == view.queue[|detach|]
        decreases k - |detach|
      {
        detach := detach + [n];
        n := n.parent;
      }
    }

    /** The nodes to take off, from the tip down to just above the fork, and the nodes to put on,
        from just above the fork up to `node`.  `k` is the fork's position in the view. */
    method GetReorganizeNodes(node: BlockNode) returns (detach: seq<BlockNode>, attach: seq<BlockNode>, ghost k: nat)
      requires Valid() && node in pool
      requires exists a :: a in Path(pool, node) && view.InView(a)
      ensures k < |view.queue| && view.InView(view.queue[k]) && view.queue[k] in Path(pool, node)
      ensures view.queue[k] in pool
      ensures forall a :: a in Path(pool, node) && view.InView(a) ==> a.height <= view.queue[k].height
      ensures detach == view.queue[..k]
      ensures Branch(view.queue[k], attach) && InPool(attach, pool)
      ensures node == if attach == [] then view.queue[k] else attach[|attach| - 1]
      ensures forall i :: 0 <= i < |attach| ==> !view.InView(attach[i])
    {
      hide Run, BlockIndex.Valid, IndexOk, HoldsChain, ViewIndexed;
      ghost var a :| a in Path(pool, node) && view.InView(a);
      var fork := view.FindFork(node, pool);
      assert a in Path(pool, node) && view.InView(a);
      attach := BranchTo(node, fork);
      k :| 0 <= k < |view.queue| && view.queue[k] == fork;
      detach := ViewAbove(fork, k);
    }

    /** Read the blocks of `nodes` from the store; one that is missing stops the reorganisation. */
    method LoadBlocks(nodes: seq<BlockNode>) returns (ok: bool, blocks: seq<Block>)
      requires StoreOk(store, history, best)
      ensures ok <==> forall i :: 0 <= i < |nodes| ==> nodes[i].hash in store.db.table
      ensures ok ==> Holds(nodes, blocks)
    {
      hide Run;
      StoreFacts();
      blocks := [];
      for i := 0 to |nodes|
        invariant |blocks| == i && forall j :: 0 <= j < i ==>
                    nodes[j].hash in store.db.table && Digest(blocks[j]) == nodes[j].hash
      {
        if nodes[i].hash !in store.db.table {
          return false, blocks;
        }
        blocks := blocks + [store.db.table[nodes[i].hash]];
      }
      return true, blocks;
    }

    /** Take the nodes above position `k` of the view off, from the tip down. */
    method DetachAll(detach: seq<BlockNode>, blocks: seq<Block>, env: Env, ghost k: nat)
      returns (err: Option<Error>, n: nat)
      requires Valid() && k < |view.queue| && 0 <= view.queue[k].height && detach == view.queue[..k]
      requires Holds(detach, blocks)
      modifies store, view, `best, `history
      ensures Valid() && n <= k && err == if n < k then Some(ErrLocalKV) else None
      ensures forall i :: 0 <= i < n ==> env.undo(blocks[i])
      ensures n < k ==> !env.undo(blocks[n])
      ensures view.queue == old(view.queue)[n..] && store.db.table == old(store.db).table
      ensures n <= |old(best)| && best == old(best)[..|old(best)| - n]
      ensures history == old(history) + ReorgSteps(n, [])
    {
      hide Valid, ReorgSteps, StoreOk, NodesOk;
      TipFacts();
      n := 0;
      ghost var q := view.queue;
      ReorgNone(best, history, []);
      while n < |detach|
        invariant Valid() && n <= k && forall i :: 0 <= i < n ==> env.undo(blocks[i])
        invariant view.queue == q[n..] && store.db.table == old(store.db).table
        invariant n <= |old(best)| && best == old(best)[..|old(best)| - n]
        invariant history == old(history) + ReorgSteps(n, [])
      {
        TipFacts();
        DetachStep(old(best), old(history), q, n);
        err := DisconnectBlock(detach[n], blocks[n], env);
        if err.Some? {
          return err, n;
        }
        n := n + 1;
      }
      return None, n;
    }

    /** The nodes from `n` on carry the hashes of their blocks. */
    static ghost predicate HoldsFrom(nodes: seq<BlockNode>, blocks: seq<Block>, n: nat)
      reads nodes
      requires n <= |nodes| == |blocks|
    {
      forall i :: n <= i < |nodes| ==> Digest(blocks[i]) == nodes[i].hash
    }

    /** The first `n` nodes of a branch are on the chain and the others are ready to follow. */
    ghost predicate Attached(fork: BlockNode, attach: seq<BlockNode>, blocks: seq<Block>, env: Env, n: nat)
      reads this, view, index, store, pool, attach
      requires n <= |attach| == |blocks|
    {
      && Valid() && InPool(attach, pool) && Branch(fork, attach)
      && view.queue[0] == Under(fork, attach, n)
      && HoldsFrom(attach, blocks, n)
      && FreshFrom(index.index, attach, blocks, env, n)
    }

    method AttachNext(ghost fork: BlockNode, attach: seq<BlockNode>, blocks: seq<Block>, env: Env, n: nat)
      returns (err: Option<Error>)
      requires n < |attach| == |blocks| && Attached(fork, attach, blocks, env, n)
      modifies store, view, index, attach, `best, `history
      ensures Valid() && |index.queue| <= |old(index.queue)|
      ensures Reindexed(old(index.index), index.index,
                        {Digest(Finish(attach[n].source, blocks[n], env.exec(blocks[n])))})
      ensures err == JoinFailure(env, blocks[n], TipHash(old(best)))
      ensures Snapshot() == if blocks[n].parentHash == TipHash(old(best))
                            then Entered(old(Snapshot()), attach[n], blocks[n], env) else old(Snapshot())
      ensures view.queue == if err.None? then Newest([attach[n]] + old(view.queue)) else old(view.queue)
      ensures err.None? ==> Attached(fork, attach, blocks, env, n + 1)
      ensures err.None? ==> forall m :: m in pool ==> m.parent == old(m.parent)
      ensures err.None? && old(Intact() && SteadyAt(attach[n], blocks[n], env)) ==> Intact()
      ensures err.None? ==>
                var b := Finish(attach[n].source, blocks[n], env.exec(blocks[n]));
                best == old(best) + [b] && history == old(history) + [Connect(b)]
      ensures err.Some? ==> best == old(best) && history == old(history)
    {
      hide Valid, Fresh, FreshFrom, Intact, Attached, Branch, Leaf, TipHash, Reindexed, Snapshot, Entered;
      AttachedFacts(fork, attach, blocks, env, n);
      ghost var before := index.index;
      err := ConnectBlock(attach[n], blocks[n], env);
      if err.None? {
        FreshTail(before, index.index, attach, blocks, env, n);
        NextAttached(fork, attach, blocks, env, n);
        if old(Intact() && SteadyAt(attach[n], blocks[n], env)) {
          StillIntact(attach[n]);
        }
      }
    }

    /** What it takes to connect the next node of a branch. */
    lemma AttachedFacts(fork: BlockNode, attach: seq<BlockNode>, blocks: seq<Block>, env: Env, n: nat)
      requires n < |attach| == |blocks| && Attached(fork, attach, blocks, env, n)
      ensures Valid() && view.queue != [] && view.queue[0].hash == TipHash(best)
      ensures InPool(attach, pool) && forall i :: 0 <= i < |attach| ==> attach[i].parent == Under(fork, attach, i)
      ensures forall i :: n <= i < |attach| ==> attach[i].hash == Digest(blocks[i])
      ensures attach[n] in pool && attach[n].parent == view.queue[0]
      ensures Fresh(index.index, attach[n].source, blocks[n], env) && FreshFrom(index.index, attach, blocks, env, n)
      ensures forall i :: n < i < |attach| ==> blocks[i].height != blocks[n].height
      ensures forall i :: 0 <= i < |attach| && i != n ==> attach[i] != attach[n]
    {
      hide Valid, Fresh;
      TipFacts();
      BranchHeights(pool, fork, attach);
      assert attach[n].parent == Under(fork, attach, n);
      forall i | n <= i < |attach|
        ensures blocks[i].height == fork.height + 1 + i
      {
        assert ParentBelow(pool, attach[0]) && NodeOk(attach[i]);
      }
    }

    lemma NextAttached(fork: BlockNode, attach: seq<BlockNode>, blocks: seq<Block>, env: Env, n: nat)
      requires n < |attach| == |blocks| && Valid() && InPool(attach, pool)
      requires view.queue[0] == attach[n] && FreshFrom(index.index, attach, blocks, env, n + 1)
      requires forall i :: 0 <= i < |attach| ==> attach[i].parent == Under(fork, attach, i)
      requires forall i :: n < i < |attach| ==> attach[i].hash == Digest(blocks[i])
      ensures Attached(fork, attach, blocks, env, n + 1)
    {
      hide Valid, FreshFrom;
    }

    /** Giving one node a new hash leaves everything anchored, if its block is stored, keeps its parent
        hash, and no other node relies on the former hash. */
    twostate lemma StillIntact(node: BlockNode)
      requires old(Intact()) && pool == old(pool) && node in pool
      requires forall m :: m in pool ==> m.parent == old(m.parent) && (m != node ==> m.hash == old(m.hash))
      requires forall h :: h in old(store.db).table ==> h in store.db.table
      requires node.hash in store.db.table && BlockOf(node).parentHash == old(BlockOf(node).parentHash)
      requires node.hash == old(node.hash) || old(Leaf(node))
      ensures Intact()
    {
      forall m | m in pool
        ensures Anchored(store.db.table, pool, m)
      {
        assert old(Anchored(store.db.table, pool, m));
      }
    }

    lemma NothingAttached(attach: seq<BlockNode>, blocks: seq<Block>, env: Env)
      requires Valid() && Branch(view.queue[0], attach) && InPool(attach, pool)
      requires Holds(attach, blocks) && FreshFrom(index.index, attach, blocks, env, 0)
      ensures Attached(view.queue[0], attach, blocks, env, 0)
    {
      hide Valid, Branch, InPool, FreshFrom;
    }

    /** Put the nodes that hang from the tip on, one after the other; the first that fails ends it. */
    method AttachAll(attach: seq<BlockNode>, blocks: seq<Block>, env: Env) returns (err: Option<Error>, n: nat)
      requires Valid() && Branch(view.queue[0], attach) && InPool(attach, pool)
      requires Holds(attach, blocks) && FreshFrom(index.index, attach, blocks, env, 0)
      modifies store, view, index, attach, `best, `history
      ensures Valid() && n <= |attach| && (err.None? <==> n == |attach|)
      ensures Reindexed(old(index.index), index.index, DigestSet(Plan(attach, blocks, env)))
      ensures |index.queue| <= |old(index.queue)|
      ensures FirstJoin(TipHash(old(best)), Plan(attach, blocks, env), blocks, env, n)
      ensures n < |attach| ==> !Joins(TipHash(old(best)), Plan(attach, blocks, env), blocks, env, n)
      ensures err == StopFailure(0, TipHash(old(best)), Plan(attach, blocks, env), blocks, env, 0, n)
      ensures Snapshot() == Settles(old(Snapshot()), attach, blocks, env,
                                    Tried(TipHash(old(best)), Plan(attach, blocks, env), blocks, n))
      ensures view.queue == Raised(old(view.queue), attach[..n])
      ensures err.None? && old(Intact() && Steady(attach, blocks, env)) ==> Intact()
      ensures best == old(best) + Plan(attach, blocks, env)[..n]
      ensures history == old(history) + ReorgSteps(0, Plan(attach, blocks, env)[..n])
    {
      hide Valid, Branch, InPool, FreshFrom, ReorgSteps, Joins, FirstJoin, Intact, Attached, Plan, Reindexed, DigestSet,
           Snapshot, Settles, Entered, Raised, Newest, TipHash, StoreOk, NodesOk;
      TipFacts();
      n := 0;
      RaisedNone(view.queue, attach);
      SettlesNone(Snapshot(), attach, blocks, env);
      ghost var fork := view.queue[0];
      ghost var plan := Plan(attach, blocks, env);
      ReorgNone(best, history, plan);
      FirstJoinNone(TipHash(best), plan, blocks, env);
      NothingAttached(attach, blocks, env);
      NoneReindexed(index.index, plan);
      while n < |attach|
        invariant n <= |attach| && Valid() && Attached(fork, attach, blocks, env, n)
        invariant FirstJoin(TipHash(old(best)), plan, blocks, env, n)
        invariant Reindexed(old(index.index), index.index, DigestSet(plan)) && |index.queue| <= |old(index.queue)|
        invariant forall m :: m in pool ==> m.parent == old(m.parent)
        invariant old(Intact() && Steady(attach, blocks, env)) ==> Intact()
        invariant Snapshot() == Settles(old(Snapshot()), attach, blocks, env, n)
        invariant view.queue == Raised(old(view.queue), attach[..n])
        invariant best == old(best) + plan[..n]
        invariant history == old(history) + ReorgSteps(0, plan[..n])
      {
        TipOfPlan(old(best), plan, n);
        JoinsHere(TipHash(old(best)), plan, blocks, env, n);
        ghost var before := index.index;
        err := AttachNext(fork, attach, blocks, env, n);
        OneReindexed(old(index.index), before, index.index, plan, n);
        RaisedPush(old(view.queue), attach, n);
        SettlesPush(old(Snapshot()), attach, blocks, env, n);
        if err.Some? {
          return err, n;
        }
        FirstJoinPush(TipHash(old(best)), plan, blocks, env, n);
        ReorgPush(old(best), old(history), 0, plan, n);
        n := n + 1;
      }
      assert attach[..n] == attach;
      return None, n;
    }

    /** Without changes to the nodes, more stored blocks leave everything anchored. */
    twostate lemma SameNodes()
      requires old(Intact()) && pool == old(pool) && forall h :: h in old(store.db).table ==> h in store.db.table
      requires forall m :: m in pool ==> m.parent == old(m.parent) && m.hash == old(m.hash)
      ensures Intact()
    {
      forall m | m in pool
        ensures Anchored(store.db.table, pool, m)
      {
        assert old(Anchored(store.db.table, pool, m));
      }
    }

    /** Take `k` blocks off, then put the loaded blocks on. */
    method MoveTip(detach: seq<BlockNode>, off: seq<Block>, attach: seq<BlockNode>, blocks: seq<Block>, env: Env,
                   ghost k: nat)
      returns (err: Option<Error>, d: nat, a: nat)
      requires Valid() && k < |view.queue| && 0 <= view.queue[k].height && detach == view.queue[..k]
      requires Holds(detach, off) && Holds(attach, blocks)
      requires Branch(view.queue[k], attach) && InPool(attach, pool) && FreshFrom(index.index, attach, blocks, env, 0)
      modifies store, view, index, attach, `best, `history
      ensures Valid() && |index.queue| <= |old(index.queue)|
      ensures Reindexed(old(index.index), index.index, DigestSet(Plan(attach, blocks, env)))
      ensures err.None? <==> d == k && a == |attach|
      ensures k <= |old(best)|
      ensures Stops(off, TipHash(old(best)[..|old(best)| - k]), Plan(attach, blocks, env), blocks, env, d, a)
      ensures err == StopFailure(k, TipHash(old(best)[..|old(best)| - k]), Plan(attach, blocks, env), blocks, env, d, a)
      ensures Snapshot() ==
              Settles(old(Snapshot()), attach, blocks, env,
                      if d < k then 0
                      else Tried(TipHash(old(best)[..|old(best)| - k]), Plan(attach, blocks, env), blocks, a))
      ensures d <= |old(view.queue)| && view.queue == Raised(old(view.queue)[d..], attach[..a])
      ensures err.None? && old(Intact() && Steady(attach, blocks, env)) ==> Intact()
      ensures Moved(old(best), old(history), best, history, d, Plan(attach, blocks, env), a)
    {
      hide Valid, InPool, Fresh, ReorgSteps, Joins, FirstJoin, Moved, Plan, Steady, Intact, Reindexed, DigestSet,
           Snapshot, Settles, Raised, TipHash, JoinFailure, Stops, StopFailure, Tried, StoreOk, NodesOk, FreshFrom,
           Branch;
      TipFacts();
      a := 0;
      ghost var base, plan := TipHash(best[..|best| - k]), Plan(attach, blocks, env);
      ghost var firm := Intact() && Steady(attach, blocks, env);
      SettlesNone(Snapshot(), attach, blocks, env);
      err, d := DetachAll(detach, off, env, k);
      if err.Some? {
        NoneReindexed(index.index, plan);
        RaisedNone(view.queue, attach);
        DetachStops(off, base, plan, blocks, env, d);
        MovedDown(old(best), old(history), d, plan);
      } else {
        if firm { SameNodes(); }
        assert firm ==> Steady(attach, blocks, env);
        err, a := AttachAll(attach, blocks, env);
        AttachStops(off, base, plan, blocks, env, a);
        MovedUp(old(best), old(history), d, plan, a);
      }
    }

    /** Move the best chain from the fork at position `k` of the view onto the nodes to attach.
        `d` blocks came off and `a` of the plan went on.  A failure part-way is not undone, but nothing at or
        below the fork changes and every state in between is a state of the recorded run. */
    method ReorganizeChain(detach: seq<BlockNode>, attach: seq<BlockNode>, env: Env, ghost k: nat)
      returns (err: Option<Error>, ghost d: nat, ghost a: nat)
      requires Valid() && k < |view.queue| && 0 <= view.queue[k].height && detach == view.queue[..k]
      requires Branch(view.queue[k], attach) && InPool(attach, pool)
      requires FreshFrom(index.index, attach, Held(attach), env, 0)
      modifies store, view, index, attach, `best, `history
      ensures Valid() && |index.queue| <= |old(index.queue)|
      ensures Reindexed(old(index.index), index.index, DigestSet(old(Plan(attach, Held(attach), env))))
      ensures old(Lands(store.db.table, best, view.queue[k].height, Plan(attach, Held(attach), env), Held(attach), env,
                        d, a))
      ensures err.None? <==> d == k && a == |attach|
      ensures err.None? <==>
              old(CanReorganize(store.db.table, best, view.queue[k].height, Plan(attach, Held(attach), env),
                                Held(attach), env))
      ensures err.None? && old(Intact() && Steady(attach, Held(attach), env)) ==> Intact()
      ensures Moved(old(best), old(history), best, history, d, old(Plan(attach, Held(attach), env)), a)
      ensures Now(err) == Leaves(old(OutlookVia(view.queue[k].height, attach, env)), env, d, a)
    {
      hide Valid, InPool, FreshFrom, ReorgSteps, Stops, Joins, Moved, CanReorganize, Branch, HashAt, Steady, Intact,
           Reindexed, DigestSet, Snapshot, Settles, Raised, TipHash, Leaves, StopFailure, Tried, StoreOk, NodesOk, Plan,
           Held, Holds;
      TipFacts();
      d, a := 0, 0;
      var okDetach, off := LoadBlocks(detach);
      var okAttach, blocks := LoadBlocks(attach);
      ghost var f, held, plan := view.queue[k].height, Held(attach), Plan(attach, Held(attach), env);
      MovedNowhere(best, history, plan);
      NoneReindexed(index.index, plan);
      DetachLoaded(detach, k);
      BranchHeights(pool, view.queue[k], attach);
      HeldStored(attach);
      ghost var outlook := OutlookVia(f, attach, env);
      if !okAttach {
        err := Some(ErrHashNotExist);
        LeavesUnloaded(outlook, env);
      } else {
        HeldBlocks(attach, blocks);
        OffIsAbove(detach, off, k);
        err, d, a := MoveTip(detach, off, attach, blocks, env, k);
        LandsLoaded(old(store.db.table), old(best), f, off, plan, held, env, d, a);
        LeavesLoaded(outlook, env, d, a, k);
      }
      LandsFully(old(store.db.table), old(best), f, plan, held, env, d, a);
    }

    /** The blocks to take off are on the best chain, so they are stored. */
    lemma DetachLoaded(detach: seq<BlockNode>, k: nat)
      requires Valid() && k < |view.queue| && 0 <= view.queue[k].height && detach == view.queue[..k]
      ensures forall i :: 0 <= i < |detach| ==> detach[i].hash in store.db.table
    {
      hide Run;
      TipFacts();
      StoreFacts();
      forall i | 0 <= i < |detach|
        ensures detach[i].hash in store.db.table
      {
        assert view.queue[i].hash == HashAt(best, |best| - 1 - i);
      }
    }

    /** The blocks that nodes stand for are stored exactly if they can be loaded. */
    lemma HeldStored(attach: seq<BlockNode>)
      requires NodesOk(pool) && InPool(attach, pool) && (forall i :: 0 <= i < |attach| ==> 0 <= attach[i].height)
      ensures Loaded(store.db.table, Held(attach)) <==>
              forall i :: 0 <= i < |attach| ==> attach[i].hash in store.db.table
    {
      forall i | 0 <= i < |attach|
        ensures Digest(Held(attach)[i]) == attach[i].hash
      {
        assert NodeOk(attach[i]);
      }
    }

    /** The blocks loaded for the view above position `k` are those of the chain above that height. */
    lemma OffIsAbove(detach: seq<BlockNode>, off: seq<Block>, k: nat)
      requires Valid() && k < |view.queue| && 0 <= view.queue[k].height && detach == view.queue[..k]
      requires Holds(detach, off)
      ensures -1 <= view.queue[k].height == |best| - 1 - k && Above(best, view.queue[k].height) == off
      ensures TipHash(best[..|best| - k]) == HashAt(best, view.queue[k].height)
    {
      hide Run;
      TipFacts();
      forall i | 0 <= i < k
        ensures off[i] == best[|best| - 1 - i]
      {
        assert Digest(off[i]) == detach[i].hash == HashAt(best, |best| - 1 - i);
      }
    }

    // ----- Choosing -----

    /** Stored difficulties, and the tip's, as total work. */
    lemma WorkFacts(block: Block)
      requires StoreOk(store, history, best)
      ensures Work(best) == TotalWork(TipHash(best))
      ensures TipHash(best) in store.db.td ==> store.db.td[TipHash(best)] == Work(best)
      ensures block.parentHash in store.db.td && block.height != 0 ==>
                TotalWork(Digest(block)) == block.work + store.db.td[block.parentHash]
    {
      hide Run;
      EveryRunKeepsInv(store.saveSequence, history);
      LinkedIsAncestry(best);
      TotalWorkStep(block);
      if TipHash(best) in store.db.td { assert TdExactAt(store.db.td, TipHash(best)); }
      if block.parentHash in store.db.td { assert TdExactAt(store.db.td, block.parentHash); }
    }

    /** Whether executing changes the block or not, its total work is that of the block offered. */
    lemma FinishedWork(source: Source, block: Block, o: ExecOutcome)
      ensures TotalWork(Digest(Finish(source, block, o))) == TotalWork(Digest(block))
    {
      TotalWorkStep(block);
      TotalWorkStep(Finish(source, block, o));
    }

    /** The blocks that go on when the chain moves to `node`. */
    ghost function SidePlan(node: BlockNode, env: Env): seq<Block>
      reads `pool, view, pool
      requires node in pool
    {
      Plan(Side(view, pool, node), Held(Side(view, pool, node)), env)
    }

    /** Reorganising onto the chain of `node` meets no obstacle. */
    ghost predicate CanSwitch(node: BlockNode, env: Env)
      reads this, view, store, pool
      requires node in pool
    {
      CanReorganize(store.db.table, best, Fork(view, pool, node).height, SidePlan(node, env),
                    Held(Side(view, pool, node)), env)
    }

    /** How far it gets: `d` blocks off and `a` on. */
    ghost predicate LandsOn(node: BlockNode, env: Env, d: nat, a: nat)
      reads this, view, store, pool
      requires node in pool
    {
      Lands(store.db.table, best, Fork(view, pool, node).height, SidePlan(node, env),
            Held(Side(view, pool, node)), env, d, a)
    }

    ghost predicate SteadySide(node: BlockNode, env: Env)
      reads `pool, view, pool
      requires node in pool
    {
      Steady(Side(view, pool, node), Held(Side(view, pool, node)), env)
    }

    ghost predicate FreshSide(node: BlockNode, env: Env)
      reads `pool, view, index, pool
      requires node in pool
    {
      FreshFrom(index.index, Side(view, pool, node), Held(Side(view, pool, node)), env, 0)
    }

    /** Reorganise onto `node`'s branch: if nothing fails, its block becomes the tip. */
    method SwitchTo(node: BlockNode, block: Block, env: Env) returns (err: Option<Error>, ghost d: nat, ghost a: nat)
      requires Valid() && node in pool && node.hash == Digest(block) && node !in view.queue && FreshSide(node, env)
      requires exists a :: a in Path(pool, node) && view.InView(a)
      modifies store, view, index, pool, `best, `history
      ensures Valid() && |index.queue| <= |old(index.queue)|
      ensures Reindexed(old(index.index), index.index, DigestSet(old(SidePlan(node, env))))
      ensures err.None? <==> old(CanSwitch(node, env))
      ensures err.None? && old(Intact() && SteadySide(node, env)) ==> Intact()
      ensures err.None? ==> TipHash(best) == Digest(Finish(node.source, block, env.exec(block)))
      ensures old(LandsOn(node, env, d, a))
      ensures Moved(old(best), old(history), best, history, d, old(SidePlan(node, env)), a)
      ensures Now(err) == Leaves(old(OutlookOn(node, env)), env, d, a)
    {
      hide Valid, ReorgSteps, Path, TipHash, Plan, Branch, CanReorganize, Lands, Side, Fork, Held, Moved, Steady,
           Intact, Leaves, OutlookVia, Now, Reindexed, DigestSet, FreshFrom;
      TipFacts();
      var detach, attach, k := GetReorganizeNodes(node);
      SideIs(view, pool, view.queue[k], attach);
      assert Side(view, pool, node) == attach && Fork(view, pool, node) == view.queue[k];
      ghost var plan := SidePlan(node, env);
      assert Held(attach)[|attach| - 1] == block;
      err, d, a := ReorganizeChain(detach, attach, env, k);
      MovedTip(old(best), old(history), best, history, d, plan, a);
    }

    /** A new block that does not extend the tip: switch to its branch if it has more work (or
        wins a tie at the same height), otherwise leave the best chain alone. */
    method MaybeReorganize(node: BlockNode, block: Block, env: Env)
      returns (err: Option<Error>, isMain: bool, ghost d: nat, ghost a: nat)
      requires Valid() && node in pool && node.hash == Digest(block) && block.height != 0
      requires node.work == block.work && node.height == block.height && node !in view.queue
      requires Wins(best, block, env) ==> FreshSide(node, env)
      requires block.parentHash in store.db.td && TipHash(best) in store.db.td
      requires exists a :: a in Path(pool, node) && view.InView(a)
      modifies store, view, index, pool, `best, `history
      ensures Valid() && |index.queue| <= |old(index.queue)|
      ensures err.None? <==> (old(Wins(best, block, env)) ==> old(CanSwitch(node, env)))
      ensures isMain <==> err.None? && old(Wins(best, block, env))
      ensures err.None? && old(Intact() && SteadySide(node, env)) ==> Intact()
      ensures old(Wins(best, block, env)) ==>
                && old(LandsOn(node, env, d, a))
                && Moved(old(best), old(history), best, history, d, old(SidePlan(node, env)), a)
                && Reindexed(old(index.index), index.index, DigestSet(old(SidePlan(node, env))))
                && Now(err) == Leaves(old(OutlookOn(node, env)), env, d, a)
      ensures !old(Wins(best, block, env)) ==>
                && best == old(best) && history == old(history) && TotalWork(Digest(block)) <= Work(best)
                && Now(err) == old(Now(None))
                && index.index == old(index.index) && (old(Intact()) ==> Intact())
      ensures isMain ==> TipHash(best) == Digest(Finish(node.source, block, env.exec(block)))
      ensures isMain ==> old(Work(best)) <= Work(best) == TotalWork(Digest(block))
    {
      hide Valid, ReorgSteps, Path, FreshSide, TotalWork, Work, TipHash, CanSwitch, LandsOn, SidePlan, SteadySide,
           Intact, Moved, Reindexed, DigestSet;
      TipFacts();
      WorkFacts(block);
      FinishedWork(node.source, block, env.exec(block));
      d, a := 0, 0;
      var tip := view.queue[0];
      var tipTd := store.db.td[tip.hash];
      var blockTd := node.work + store.db.td[block.parentHash];
      var sideChain := blockTd <= tipTd;
      if env.preferNew && blockTd == tipTd && node.height == tip.height {
        sideChain := false;
      }
      if sideChain {
        err, isMain := None, false;
      } else {
        err, d, a := SwitchTo(node, block, env);
        isMain := err.None?;
        TipFacts();
        WorkFacts(block);
      }
    }

    /** What a parent found in the index tells about its child. */
    lemma ChildFacts(node: BlockNode, block: Block)
      requires Valid() && node in pool && node.parent != null && node.hash == Digest(block)
      requires Indexed(index, node.parent) && node.parent.hash == block.parentHash
      ensures block.parentHash == view.queue[0].hash ==> node.parent == view.queue[0]
      ensures block.height == 0 ==> block.parentHash !in store.db.td
      ensures node.height == block.height && node.work == block.work
      ensures view.queue[0].hash == TipHash(best)
      ensures TipHash(best) in store.db.td <==> best != []
    {
      hide Run;
      StoreFacts();
      assert ParentBelow(pool, node) && Indexed(index, view.queue[0]) && NodeOk(node) && NodeOk(node.parent);
      EveryRunKeepsInv(store.saveSequence, history);
      OnlyBlocks(store.db);
      if block.parentHash in store.db.td { assert TdExactAt(store.db.td, block.parentHash); }
    }

    /** The chain of the block has to be compared with the best chain. */
    ghost predicate Compares(block: Block)
      reads `best, store
    {
      block.parentHash in store.db.td && block.parentHash != TipHash(best)
    }

    /** The best chain is to move: the block extends the tip, or is known to win against it. */
    ghost predicate Attempts(block: Block, env: Env)
      reads `best, store
    {
      || block.parentHash == TipHash(best)
      || (best != [] && Compares(block) && Wins(best, block, env))
    }

    /** The error if the chain is not to move: a total difficulty is missing, or none. */
    ghost function ChoiceFailure(block: Block): Option<Error>
      reads `best, store
    {
      if best == [] then Some(ErrHashNotExist)
      else if block.parentHash !in store.db.td then Some(ErrParentTdNoExist)
      else None
    }

    /** Choosing between the chains meets no obstacle. */
    ghost predicate CanChoose(node: BlockNode, block: Block, env: Env)
      reads this, view, store, pool
      requires node in pool
    {
      if block.parentHash == TipHash(best) then Executes(env, block)
      else best != [] && block.parentHash in store.db.td && (Wins(best, block, env) ==> CanSwitch(node, env))
    }

    /** The block's parent is the tip: connect it. */
    method ExtendTip(node: BlockNode, block: Block, env: Env) returns (err: Option<Error>)
      requires Valid() && node in pool && node.parent == view.queue[0] && node.hash == Digest(block)
      requires block.parentHash == view.queue[0].hash && Fresh(index.index, node.source, block, env) && 0 <= node.height
      modifies store, view, index, node, `best, `history
      ensures Valid() && |index.queue| <= |old(index.queue)|
      ensures Reindexed(old(index.index), index.index, {Digest(Finish(node.source, block, env.exec(block)))})
      ensures err == JoinFailure(env, block, block.parentHash)
      ensures Snapshot() == Entered(old(Snapshot()), node, block, env)
      ensures view.queue == if err.None? then Newest([node] + old(view.queue)) else old(view.queue)
      ensures err.None? && old(Intact() && Leaf(node)) ==> Intact()
      ensures err.None? ==>
                var b := Finish(node.source, block, env.exec(block));
                && best == old(best) + [b] && history == old(history) + [Connect(b)] && TipHash(best) == Digest(b)
                && old(Work(best)) <= Work(best) == TotalWork(Digest(block))
      ensures err.Some? ==> best == old(best) && history == old(history)
    {
      hide Valid, ReorgSteps, TotalWork, Work, Intact, Leaf, Reindexed, Snapshot, Entered, Newest, Finish, JoinFailure,
           NodesOk, Fresh, Executes;
      TipFacts();
      err := ConnectBlock(node, block, env);
      if err.None? {
        FinishedWork(node.source, block, env.exec(block));
        TipFacts();
        WorkFacts(block);
        WorkPush(old(best), Finish(node.source, block, env.exec(block)));
        if old(Intact() && Leaf(node)) { StillIntact(node); }
      }
    }

    /** The tip is its own fork. */
    lemma SideOfTip()
      requires Valid()
      ensures view.queue[0] in pool
      ensures Side(view, pool, view.queue[0]) == [] && Fork(view, pool, view.queue[0]) == view.queue[0]
    {
      hide Run, BlockIndex.Valid, IndexOk, HoldsChain, ViewIndexed;
      assert ParentBelow(pool, view.queue[0]);
      if view.queue[0].parent != null { assert ParentBelow(pool, view.queue[0].parent); }
    }

    lemma ChildSide(node: BlockNode)
      requires Valid() && node in pool && node.parent == view.queue[0]
      ensures Side(view, pool, node) == [node] && Fork(view, pool, node) == view.queue[0]
      ensures view.queue[0].height == |best| - 1
    {
      hide Run, BlockIndex.Valid, IndexOk, HoldsChain, ViewIndexed;
      ChildOfTip(node);
      assert ParentBelow(pool, node);
      SideOfTip();
    }

    /** The side of a child of the tip is that child. */
    lemma SideOfChild(node: BlockNode, block: Block, env: Env)
      requires Valid() && node in pool && node.parent == view.queue[0] && node.hash == Digest(block)
      requires block.parentHash == TipHash(best) && Digest(block) in store.db.table
      ensures SidePlan(node, env) == [Finish(node.source, block, env.exec(block))]
      ensures FreshSide(node, env) ==> Fresh(index.index, node.source, block, env)
      ensures LandsOn(node, env, 0, if Executes(env, block) then 1 else 0)
      ensures Leaves(OutlookOn(node, env), env, 0, if Executes(env, block) then 1 else 0) ==
              Aftermath(Entered(Snapshot(), node, block, env),
                        if Executes(env, block) then Newest([node] + view.queue) else view.queue,
                        JoinFailure(env, block, block.parentHash))
    {
      hide Valid, Lands, Side, Fork, Leaves, Entered, Newest, Snapshot, JoinFailure;
      ChildSide(node);
      var last := Finish(node.source, block, env.exec(block));
      assert Held([node]) == [block];
      assert FreshSide(node, env) ==> Fresh(index.index, [node][0].source, [block][0], env);
      LandsOnTip(store.db.table, best, last, block, env);
      LeavesOnTip(OutlookOn(node, env), node, last, block, env);
    }

    /** Extend the tip if the block's parent is the tip, otherwise compare total work. */
    method ConnectBestChain(node: BlockNode, block: Block, env: Env)
      returns (err: Option<Error>, isMain: bool, ghost d: nat, ghost a: nat)
      requires Valid() && node in pool && node.parent != null && node.hash == Digest(block) && node !in view.queue
      requires Indexed(index, node.parent) && node.parent.hash == block.parentHash
      requires 0 <= node.height && Digest(block) in store.db.table && (Attempts(block, env) ==> FreshSide(node, env))
      requires Compares(block) ==> exists a :: a in Path(pool, node) && view.InView(a)
      modifies store, view, index, pool, `best, `history
      ensures Valid() && |index.queue| <= |old(index.queue)|
      ensures err.None? <==> old(CanChoose(node, block, env))
      ensures isMain <==> err.None? && old(Attempts(block, env))
      ensures old(Attempts(block, env)) ==>
                && old(LandsOn(node, env, d, a))
                && Moved(old(best), old(history), best, history, d, old(SidePlan(node, env)), a)
                && Reindexed(old(index.index), index.index, DigestSet(old(SidePlan(node, env))))
                && Now(err) == Leaves(old(OutlookOn(node, env)), env, d, a)
      ensures !old(Attempts(block, env)) ==>
                && best == old(best) && history == old(history) && Now(err) == old(Now(ChoiceFailure(block)))
                && index.index == old(index.index) && (old(Intact()) ==> Intact())
                && (err.None? ==> TotalWork(Digest(block)) <= Work(best))
      ensures isMain ==> TipHash(best) == Digest(Finish(node.source, block, env.exec(block)))
      ensures isMain ==> old(Work(best)) <= Work(best) == TotalWork(Digest(block))
      ensures err.None? && old(Intact() && Leaf(node)) && old(Compares(block) ==> SteadySide(node, env)) ==> Intact()
    {
      hide Valid, ReorgSteps, Path, TotalWork, Work, TipHash, CanSwitch, Wins, Intact, Leaf, SteadySide, Moved, LandsOn,
           SidePlan, Reindexed, FreshSide, Fresh, Snapshot, Leaves, OutlookOn, Entered, Newest;
      TipFacts();
      ChildFacts(node, block);
      d, a, isMain := 0, 0, false;
      if block.parentHash == view.queue[0].hash {
        SideOfChild(node, block, env);
        ghost var last := Finish(node.source, block, env.exec(block));
        MovedOne(best, history, last);
        MovedNowhere(best, history, [last]);
        NoneReindexed(index.index, [last]);
        err := ExtendTip(node, block, env);
        OneReindexed(old(index.index), old(index.index), index.index, [last], 0);
        isMain := err.None?;
        a := if err.None? then 1 else 0;
      } else if view.queue[0].hash !in store.db.td {
        err := Some(ErrHashNotExist);
      } else if block.parentHash !in store.db.td {
        err := Some(ErrParentTdNoExist);
      } else {
        err, isMain, d, a := MaybeReorganize(node, block, env);
      }
    }

    // ----- Accepting -----

    /** The node that the index drops when one more is added. */
    ghost predicate Evicted(n: BlockNode)
      reads index
    {
      |index.queue| == INDEX_CACHE_LIMIT && index.queue[0] == n
    }

    /** Following the parents of `prev` ends at the same node after the index makes room. */
    ghost predicate Stays(prev: BlockNode)
      reads `pool, view, index, pool
      requires prev in pool
    {
      && !Evicted(Fork(view, pool, prev))
      && (forall i :: 0 <= i < |Side(view, pool, prev)| ==> !Evicted(Side(view, pool, prev)[i]))
    }

    /** That node is in view. */
    ghost predicate Forkable(prev: BlockNode)
      reads `pool, view, index, pool
      requires prev in pool
    {
      view.InView(Fork(view, pool, prev)) && Stays(prev)
    }

    lemma FirstIndexed()
      requires index.Valid()
      ensures index.queue != [] ==> Indexed(index, index.queue[0])
    {
    }

    /** Index a new node whose parent is known; the evicted node, if any, loses its parent. */
    method IndexNew(node: BlockNode)
      requires NodesOk(pool) && IndexOk(index, pool) && node !in pool && node.hash !in index.index
      requires NodeOk(node) && 0 <= node.height && node.parent != null && ParentBelow(pool, node)
      modifies index, `pool, (set n | n in pool && Evicted(n))`parent
      ensures NodesOk(pool) && IndexOk(index, pool) && pool == old(pool) + {node}
      ensures forall n :: n in old(pool) && old(Indexed(index, n) && !Evicted(n)) ==> Indexed(index, n)
      ensures forall n :: n in old(pool) ==> n.parent == old(n.parent) || n.parent == null
      ensures index.index.Keys <= old(index.index).Keys + {node.hash} && |index.queue| <= |old(index.queue)| + 1
      ensures |old(index.queue)| < INDEX_CACHE_LIMIT ==>
                index.index == old(index.index)[node.hash := node] && index.queue == old(index.queue) + [node]
      ensures |old(index.queue)| == INDEX_CACHE_LIMIT ==>
                && index.index == old(index.index)[node.hash := node] - {old(index.queue[0].hash)}
                && index.queue == old(index.queue)[1..] + [node] && old(index.queue)[0].parent == null
    {
      hide Closed, NodeOk, BlockIndex.Valid;
      FirstIndexed();
      index.AddNode(node);
      ghost var was := pool;
      pool := pool + {node};
      Grown(was, node);
      forall n | n in was && old(Indexed(index, n) && !Evicted(n))
        ensures Indexed(index, n)
      {
        assert n.hash == old(n.hash) && n.hash != node.hash;
      }
    }

    twostate lemma Grown(was: set<BlockNode>, new node: BlockNode)
      requires old(NodesOk(was)) && ParentBelow(was, node) && NodeOk(node)
      requires forall n :: n in was ==> n.hash == old(n.hash) && (n.parent == old(n.parent) || n.parent == null)
      ensures NodesOk(was + {node})
    {
      ClosedKept(was, was + {node});
    }

    /** Indexing a new node does not change what the view shows. */
    twostate lemma ViewGrown()
      requires old(ViewOk(view, pool, best)) && old(ViewIndexed(index, view.queue))
      requires unchanged(view) && old(pool) <= pool && best == old(best)
      requires forall i :: 0 <= i < |view.queue| ==>
                 view.queue[i].hash == old(view.queue[i].hash) && view.queue[i].parent == old(view.queue[i].parent)
      requires forall i :: 0 <= i < |view.queue| && old(Indexed(index, view.queue[i])) ==> Indexed(index, view.queue[i])
      ensures ViewOk(view, pool, best) && ViewIndexed(index, view.queue)
    {
    }

    /** The graph with one more node, spelled out. */
    lemma JoinedIs(node: BlockNode, prev: BlockNode, hash: Hash)
      requires index.Valid() && |index.queue| <= INDEX_CACHE_LIMIT && node !in index.queue && hash !in index.index
      requires forall n :: n in index.queue ==> n in pool
      ensures |index.queue| < INDEX_CACHE_LIMIT ==>
                Joined(Snapshot(), node, prev, hash) ==
                Graph(Links(pool)[node := Link(prev, hash)], index.index[hash := node], index.queue + [node])
      ensures |index.queue| == INDEX_CACHE_LIMIT ==>
                var first, links := index.queue[0], Links(pool)[node := Link(prev, hash)];
                Joined(Snapshot(), node, prev, hash) ==
                Graph(links[first := links[first].(parent := null)],
                      index.index[hash := node] - {first.hash},
                      index.queue[1..] + [node])
    {
      hide Links;
      if |index.queue| == INDEX_CACHE_LIMIT {
        var first, queue, more := index.queue[0], index.queue + [node], index.index[hash := node];
        LinkAt(first);
        assert queue[0] == first;
        ExceptOne(queue, 0);
        assert RemoveAt(queue, 0) == index.queue[1..] + [node];
        assert (map h | h in more && more[h] != first :: more[h]) == more - {first.hash};
      }
    }

    /** One more node is one more link, and the evicted one loses its parent. */
    twostate lemma LinksGrown(new node: BlockNode, new first: BlockNode)
      requires node !in old(pool) && pool == old(pool) + {node}
      requires first in old(pool) && first.parent == null
      requires forall n :: n in old(pool) ==> n.hash == old(n.hash) && (n != first ==> n.parent == old(n.parent))
      ensures var links := old(Links(pool))[node := Link(node.parent, node.hash)];
              Links(pool) == links[first := links[first].(parent := null)]
    {
    }

    twostate lemma LinksOnlyGrown(new node: BlockNode)
      requires node !in old(pool) && pool == old(pool) + {node}
      requires forall n :: n in old(pool) ==> n.hash == old(n.hash) && n.parent == old(n.parent)
      ensures Links(pool) == old(Links(pool))[node := Link(node.parent, node.hash)]
    {
    }

    /** Make a node and index it. */
    method MakeNode(prev: BlockNode, block: Block, source: Source) returns (node: BlockNode)
      requires Valid() && Indexed(index, prev) && prev in pool && block.height == prev.height + 1
      requires Digest(block) !in index.index && prev.hash == block.parentHash
      requires !Evicted(prev) && forall i :: 0 <= i < |view.queue| ==> !Evicted(view.queue[i])
      modifies index, `pool, (set n | n in pool && Evicted(n))`parent
      ensures Valid() && pool == old(pool) + {node} && fresh(node)
      ensures node.parent == prev && node.hash == Digest(block) && node.source == source && Indexed(index, prev)
      ensures node.height == block.height
      ensures index.index.Keys <= old(index.index).Keys + {Digest(block)} && |index.queue| <= |old(index.queue)| + 1
      ensures forall n :: n in old(pool) && old(Indexed(index, n) && !Evicted(n)) ==> Indexed(index, n)
      ensures forall n :: n in old(pool) ==> n.parent == old(n.parent) || n.parent == null
      ensures Snapshot() == Joined(old(Snapshot()), node, prev, Digest(block))
    {
      hide Run, BlockIndex.Valid, IndexOk, HoldsChain, ViewIndexed, ChainView.Valid, Closed, Links, Joined;
      PrevFacts(prev);
      QueueFacts();
      node := new BlockNode(prev, Digest(block), block.height, block.work, source);
      JoinedIs(node, prev, Digest(block));
      IndexNew(node);
      ViewGrown();
      if |old(index.queue)| == INDEX_CACHE_LIMIT {
        LinksGrown(node, old(index.queue)[0]);
      } else {
        LinksOnlyGrown(node);
      }
    }

    lemma QueueFacts()
      requires Valid()
      ensures index.Valid() && |index.queue| <= INDEX_CACHE_LIMIT
      ensures forall n :: n in index.queue ==> n in pool
    {
    }

    /** Make a node for an accepted block: its side is that of its parent with the node on top. */
    method AddNew(prev: BlockNode, block: Block, source: Source) returns (node: BlockNode)
      requires Valid() && Indexed(index, prev) && prev in pool && block.height == prev.height + 1
      requires Digest(block) !in index.index && prev.hash == block.parentHash
      requires !Evicted(prev) && forall i :: 0 <= i < |view.queue| ==> !Evicted(view.queue[i])
      modifies index, `pool, (set n | n in pool && Evicted(n))`parent
      ensures Valid() && pool == old(pool) + {node} && fresh(node)
      ensures node.parent == prev && node.hash == Digest(block) && node.source == source && Indexed(index, prev)
      ensures node.height == block.height
      ensures index.index.Keys <= old(index.index).Keys + {Digest(block)} && |index.queue| <= |old(index.queue)| + 1
      ensures forall n :: n in old(pool) && old(Indexed(index, n) && !Evicted(n)) ==> Indexed(index, n)
      ensures forall n :: n in old(pool) ==> n.parent == old(n.parent) || n.parent == null
      ensures Snapshot() == Joined(old(Snapshot()), node, prev, Digest(block))
      ensures old(Stays(prev)) ==>
                && Fork(view, pool, node) in Path(pool, node)
                && Fork(view, pool, node) == old(Fork(view, pool, prev))
                && Side(view, pool, node) == old(Side(view, pool, prev)) + [node]
                && Held(Side(view, pool, node)) == old(Held(Side(view, pool, prev))) + [block]
    {
      hide Valid, Path, Side, Fork, Closed, InPool, Evicted, Snapshot, Joined;
      PrevFacts(prev);
      SideFacts(view, pool, prev);
      ghost var side, fork, blocks := Side(view, pool, prev), Fork(view, pool, prev), Held(Side(view, pool, prev));
      assert forall i :: 0 <= i < |side| ==> side[i] in pool;
      node := MakeNode(prev, block, source);
      PrevFacts(prev);
      if old(Stays(prev)) {
        assert Held(side) == blocks;
        SideOfNew(side, fork, node, block);
      }
    }

    /** The side of a node on top of a side. */
    lemma SideOfNew(side: seq<BlockNode>, fork: BlockNode, node: BlockNode, block: Block)
      requires Closed(pool) && fork in pool && Branch(fork, side)
      requires view.InView(fork) || fork.parent == null
      requires forall i :: 0 <= i < |side| ==> !view.InView(side[i]) && side[i] in pool
      requires node in pool && node !in view.queue && node.parent == Under(fork, side, |side|)
      requires node.hash == Digest(block)
      ensures Fork(view, pool, node) in Path(pool, node)
      ensures Fork(view, pool, node) == fork && Side(view, pool, node) == side + [node]
      ensures Held(side + [node]) == Held(side) + [block]
    {
      hide Closed, Side, Fork, Path, Branch;
      BranchPush(fork, side, node);
      SideIs(view, pool, fork, side + [node]);
      SideFacts(view, pool, node);
    }

    lemma PrevFacts(prev: BlockNode)
      requires Valid() && prev in pool
      ensures -1 <= prev.height && Closed(pool)
      ensures forall i :: 0 <= i < |view.queue| ==> view.queue[i] in pool && Indexed(index, view.queue[i])
    {
      assert ParentBelow(pool, prev);
    }

    /** Write an accepted block's batch. */
    method StoreBlock(block: Block) returns (ok: bool)
      requires Valid()
      modifies store, `history
      ensures Valid()
      ensures ok == (block.height == 0 || block.parentHash in old(store.db).td)
      ensures history == if ok then old(history) + [Store(block)] else old(history)
      ensures !ok ==> store.db == old(store.db)
      ensures ok ==> store.db.table == old(store.db).table[Digest(block) := block]
      ensures block.parentHash in store.db.td <==> block.parentHash in old(store.db).td
    {
      hide Run, BlockIndex.Valid, IndexOk, HoldsChain, ViewIndexed, ChainView.Valid, NodesOk, Closed;
      if block.height == 0 || block.parentHash in store.db.td {
        RunPush(store.saveSequence, history, Store(block));
      }
      ok := store.MaybeStoreBlock(block);
      if ok {
        history := history + [Store(block)];
      }
    }

    /** What the caller owes: the block is new; if the best chain is to move, executing gives new hashes;
        the view can be reached from the parent; and the index does not drop a node that is still needed. */
    ghost predicate Acceptable(block: Block, source: Source, env: Env)
      reads this, view, index, store, pool
      requires Valid()
    {
      && Digest(block) !in index.index
      && (forall i :: 0 <= i < |view.queue| ==> !Evicted(view.queue[i]))
      && (block.parentHash in index.index ==>
            var prev := index.index[block.parentHash];
            && !Evicted(prev)
            && (Compares(block) ==> Forkable(prev))
            && (Attempts(block, env) ==> FreshSide(prev, env) && Fresh(index.index, source, block, env)))
    }

    /** Executing these blocks again does not change them. */
    static ghost predicate AllSettled(side: seq<BlockNode>, blocks: seq<Block>, env: Env)
      requires |side| == |blocks|
    {
      forall i :: 0 <= i < |side| ==> Finish(side[i].source, blocks[i], env.exec(blocks[i])) == blocks[i]
    }

    /** Nor does executing the blocks on the side of `n`. */
    ghost predicate Settled(n: BlockNode, env: Env)
      reads `pool, view, pool
      requires n in pool
    {
      AllSettled(Side(view, pool, n), Held(Side(view, pool, n)), env)
    }

    /** The blocks that go on when the chain moves to a new block on top of `prev`. */
    ghost function PlanFrom(prev: BlockNode, block: Block, source: Source, env: Env): seq<Block>
      reads `pool, view, pool
      requires prev in pool
    {
      SidePlan(prev, env) + [Finish(source, block, env.exec(block))]
    }

    /** `CanChoose` seen from the parent `prev`, before the block has a node, with `table` as stored blocks. */
    ghost predicate CanChooseFrom(table: map<Hash, Block>, prev: BlockNode, block: Block, source: Source, env: Env)
      reads this, view, store, pool
      requires prev in pool
    {
      Chooses(table, block.parentHash in store.db.td, best, block, env, Fork(view, pool, prev).height,
              PlanFrom(prev, block, source, env), Held(Side(view, pool, prev)) + [block])
    }

    /** `LandsOn` seen from there. */
    ghost predicate LandsFrom(table: map<Hash, Block>, prev: BlockNode, block: Block, source: Source, env: Env,
                              d: nat, a: nat)
      reads this, view, store, pool
      requires prev in pool
    {
      Lands(table, best, Fork(view, pool, prev).height, PlanFrom(prev, block, source, env),
            Held(Side(view, pool, prev)) + [block], env, d, a)
    }

    /** `OutlookOn` seen from there, without the node. */
    ghost function OutlookFrom(table: map<Hash, Block>, prev: BlockNode, block: Block, source: Source, env: Env):
      Outlook
      reads this, view, index, pool
      requires prev in pool
    {
      Outlook(Snapshot(), view.queue, table, best, Fork(view, pool, prev).height, Side(view, pool, prev),
              PlanFrom(prev, block, source, env), Held(Side(view, pool, prev)) + [block])
    }

    /** A new node on a stored block that hangs from its parent by hash is anchored, and a leaf. */
    twostate lemma NewIntact(new node: BlockNode)
      requires old(Closed(pool)) && pool == old(pool) + {node} && node !in old(pool) && node.parent in old(pool)
      requires forall m :: m in old(pool) ==> m.hash == old(m.hash) && (m.parent == old(m.parent) || m.parent == null)
      requires store.db.table == old(store.db.table) && node.hash in store.db.table
      requires BlockOf(node).parentHash == node.parent.hash
      ensures old(Intact()) ==> Intact()
      ensures Leaf(node)
    {
      forall m | m in old(pool)
        ensures m.parent != node
      {
        assert old(ParentBelow(pool, m));
      }
      if old(Intact()) {
        forall m | m in pool
          ensures Anchored(store.db.table, pool, m)
        {
          if m in old(pool) { assert old(Anchored(store.db.table, pool, m) && ParentBelow(pool, m)); }
        }
      }
    }

    lemma PlanPush(side: seq<BlockNode>, blocks: seq<Block>, node: BlockNode, block: Block, env: Env)
      requires |side| == |blocks|
      ensures Plan(side + [node], blocks + [block], env) ==
              Plan(side, blocks, env) + [Finish(node.source, block, env.exec(block))]
    {
    }

    lemma SteadyPush(side: seq<BlockNode>, blocks: seq<Block>, node: BlockNode, block: Block, env: Env)
      requires |side| == |blocks| && Leaf(node) && AllSettled(side, blocks, env)
      ensures Steady(side + [node], blocks + [block], env)
    {
    }

    /** If the best chain is to move, the index keeps what it takes. */
    lemma AttemptStays(block: Block, source: Source, env: Env)
      requires Valid() && Acceptable(block, source, env) && Attempts(block, env) && block.parentHash in index.index
      ensures index.index[block.parentHash] in pool && Stays(index.index[block.parentHash])
      ensures best != [] ==> 0 <= Fork(view, pool, index.index[block.parentHash]).height
    {
      hide Run, Side, Fork;
      IndexFacts(block.parentHash);
      TipFacts();
      if block.parentHash == TipHash(best) {
        assert Indexed(index, view.queue[0]);
        SideOfTip();
      }
    }

    /** The blocks on the side of a node are lower than a block on top of it. */
    lemma SideBelow(prev: BlockNode)
      requires NodesOk(pool) && prev in pool
      ensures forall i :: 0 <= i < |Side(view, pool, prev)| ==> Held(Side(view, pool, prev))[i].height <= prev.height
    {
      SideFacts(view, pool, prev);
      var side, fork := Side(view, pool, prev), Fork(view, pool, prev);
      BranchHeights(pool, fork, side);
      forall i | 0 <= i < |side|
        ensures Held(side)[i].height <= prev.height
      {
        assert ParentBelow(pool, fork) && NodeOk(side[i]);
      }
    }

    /** What the caller owes, spelled out. */
    lemma BeforeIndexing(prev: BlockNode, block: Block, source: Source, env: Env)
      requires Valid() && Acceptable(block, source, env) && block.parentHash in index.index
      requires prev == index.index[block.parentHash] && block.height == prev.height + 1
      ensures prev in pool && Indexed(index, prev) && prev.hash == block.parentHash && !Evicted(prev) && Closed(pool)
      ensures Digest(block) !in index.index && 0 <= block.height
      ensures forall i :: 0 <= i < |view.queue| ==> !Evicted(view.queue[i]) && view.queue[i] in pool
      ensures ZERO_HASH in index.index ==>
                var zero := index.index[ZERO_HASH];
                zero in pool && Indexed(index, zero) && zero.hash == ZERO_HASH
      ensures Compares(block) ==> Stays(prev) && view.InView(Fork(view, pool, prev))
      ensures Attempts(block, env) ==>
                && Stays(prev) && Fresh(index.index, source, block, env)
                && FreshFrom(index.index, Side(view, pool, prev), Held(Side(view, pool, prev)), env, 0)
      ensures forall i :: 0 <= i < |Side(view, pool, prev)| ==> Held(Side(view, pool, prev))[i].height != block.height
    {
      hide Run, Side, Fork, Stays, Fresh, Attempts, Compares;
      IndexFacts(block.parentHash);
      if ZERO_HASH in index.index { IndexFacts(ZERO_HASH); }
      if Attempts(block, env) { AttemptStays(block, source, env); }
      SideBelow(prev);
    }

    /** What could be seen from the parent is what is seen from the node on top of it. */
    lemma AfterIndexing(node: BlockNode, side: seq<BlockNode>, fork: BlockNode, blocks: seq<Block>, block: Block,
                        env: Env)
      requires node in pool && |side| == |blocks|
      requires Side(view, pool, node) == side + [node] && Fork(view, pool, node) == fork
      requires Held(side + [node]) == blocks + [block]
      ensures SidePlan(node, env) == Plan(side, blocks, env) + [Finish(node.source, block, env.exec(block))]
      ensures CanChoose(node, block, env) ==
              Chooses(store.db.table, block.parentHash in store.db.td, best, block, env, fork.height,
                      Plan(side, blocks, env) + [Finish(node.source, block, env.exec(block))], blocks + [block])
      ensures FreshFrom(index.index, side + [node], blocks + [block], env, 0) ==> FreshSide(node, env)
      ensures Leaf(node) && AllSettled(side, blocks, env) ==> SteadySide(node, env)
    {
      hide Side, Fork, Plan, CanReorganize, Wins, Leaf, Steady, FreshFrom, TipHash, Held;
      PlanPush(side, blocks, node, block, env);
      if Leaf(node) && AllSettled(side, blocks, env) { SteadyPush(side, blocks, node, block, env); }
    }

    /** A block that neither extends the tip nor has a known parent difficulty cannot be chosen. */
    lemma NoChoice(node: BlockNode, block: Block, env: Env, fork: int, plan: seq<Block>, blocks: seq<Block>)
      requires node in pool && !Compares(block) && !Attempts(block, env)
      ensures !CanChoose(node, block, env)
      ensures !Chooses(store.db.table, block.parentHash in store.db.td, best, block, env, fork, plan, blocks)
    {
      hide CanSwitch, CanReorganize;
    }

    /** Make a node for a stored block; it is anchored, and a leaf. */
    method AddAnchored(prev: BlockNode, block: Block, source: Source) returns (node: BlockNode)
      requires Valid() && Closed(pool) && Indexed(index, prev) && prev in pool && block.height == prev.height + 1
      requires Digest(block) !in index.index && prev.hash == block.parentHash && Digest(block) in store.db.table
      requires !Evicted(prev) && forall i :: 0 <= i < |view.queue| ==> !Evicted(view.queue[i])
      requires ZERO_HASH in index.index ==>
                 var zero := index.index[ZERO_HASH];
                 zero in pool && Indexed(index, zero) && zero.hash == ZERO_HASH
      modifies index, `pool, (set n | n in pool && Evicted(n))`parent
      ensures Valid() && pool == old(pool) + {node} && fresh(node)
      ensures node.parent == prev && node.hash == Digest(block) && node.source == source && Indexed(index, prev)
      ensures node.height == block.height
      ensures index.index.Keys <= old(index.index).Keys + {Digest(block)} && |index.queue| <= |old(index.queue)| + 1
      ensures old(ZERO_HASH in index.index && !Evicted(index.index[ZERO_HASH])) ==> ZERO_HASH in index.index
      ensures Snapshot() == Joined(old(Snapshot()), node, prev, Digest(block))
      ensures old(Stays(prev)) ==>
                && Fork(view, pool, node) in Path(pool, node)
                && Fork(view, pool, node) == old(Fork(view, pool, prev))
                && Side(view, pool, node) == old(Side(view, pool, prev)) + [node]
                && Held(Side(view, pool, node)) == old(Held(Side(view, pool, prev))) + [block]
      ensures Leaf(node) && (old(Intact()) ==> Intact())
    {
      hide Valid, Path, Side, Fork, Held, Intact, Leaf, Evicted, Stays, Snapshot, Joined;
      ghost var zero := if ZERO_HASH in index.index then index.index[ZERO_HASH] else prev;
      node := AddNew(prev, block, source);
      assert old(Indexed(index, zero) && !Evicted(zero)) ==> Indexed(index, zero);
      NewIntact(node);
    }

    /** Give a stored block its node. */
    method IndexBlock(prev: BlockNode, block: Block, source: Source, env: Env) returns (node: BlockNode)
      requires Valid() && Acceptable(block, source, env) && block.parentHash in index.index
      requires prev == index.index[block.parentHash] && prev in pool
      requires block.height == prev.height + 1 && Digest(block) in store.db.table
      modifies index, `pool, (set n | n in pool && Evicted(n))`parent
      ensures Valid() && fresh(node) && pool == old(pool) + {node}
      ensures node.parent == prev && node.hash == Digest(block) && node.source == source && Indexed(index, prev)
      ensures prev.hash == block.parentHash && 0 <= node.height == block.height && node !in view.queue
      ensures index.index.Keys <= old(index.index).Keys + {Digest(block)} && |index.queue| <= |old(index.queue)| + 1
      ensures old(ZERO_HASH in index.index && !Evicted(index.index[ZERO_HASH])) ==> ZERO_HASH in index.index
      ensures CanChoose(node, block, env) == old(CanChooseFrom(store.db.table, prev, block, source, env))
      ensures Compares(block) ==> exists a :: a in Path(pool, node) && view.InView(a)
      ensures Attempts(block, env) ==>
                && SidePlan(node, env) == old(PlanFrom(prev, block, source, env)) && FreshSide(node, env)
                && Fork(view, pool, node).height == old(Fork(view, pool, prev).height)
                && Held(Side(view, pool, node)) == old(Held(Side(view, pool, prev))) + [block]
                && Side(view, pool, node) == old(Side(view, pool, prev)) + [node]
      ensures Snapshot() == Joined(old(Snapshot()), node, prev, Digest(block))
      ensures Leaf(node) && (old(Intact()) ==> Intact())
      ensures old(Settled(prev, env)) && Compares(block) ==> SteadySide(node, env)
    {
      hide Valid, Acceptable, Forkable, Path, Side, Fork, Plan, Held, Chooses, CanChoose, Intact, Leaf, Fresh,
           FreshFrom, FreshSide, SteadySide, Compares, Attempts, Evicted, AllSettled, Snapshot, Joined, Stays;
      BeforeIndexing(prev, block, source, env);
      ghost var side, fork, before := Side(view, pool, prev), Fork(view, pool, prev), index.index;
      ghost var blocks := Held(side);
      node := AddAnchored(prev, block, source);
      if old(Stays(prev)) {
        AfterIndexing(node, side, fork, blocks, block, env);
        if old(Attempts(block, env)) { FreshPush(before, index.index, side, blocks, node, block, env); }
      } else {
        NoChoice(node, block, env, fork.height, old(PlanFrom(prev, block, source, env)), blocks + [block]);
      }
    }

    /** What moving to a new node depends on follows from what was there before it. */
    twostate lemma OutlookOnNew(new prev: BlockNode, new node: BlockNode, new block: Block, new source: Source,
                                new env: Env)
      requires prev in old(pool) && node in pool
      requires Snapshot() == Joined(old(Snapshot()), node, prev, Digest(block))
      requires view.queue == old(view.queue) && store.db.table == old(store.db.table) && best == old(best)
      requires SidePlan(node, env) == old(PlanFrom(prev, block, source, env))
      requires Fork(view, pool, node).height == old(Fork(view, pool, prev).height)
      requires Held(Side(view, pool, node)) == old(Held(Side(view, pool, prev))) + [block]
      requires Side(view, pool, node) == old(Side(view, pool, prev)) + [node]
      ensures OutlookOn(node, env) ==
              WithNode(old(OutlookFrom(store.db.table, prev, block, source, env)), node, prev, Digest(block))
    {
      hide Side, Fork, Plan, Held, Snapshot, Joined;
    }

    /** Index a stored block and choose between the chains. */
    method IndexAndConnect(prev: BlockNode, block: Block, source: Source, env: Env)
      returns (err: Option<Error>, isMain: bool, ghost node: BlockNode, ghost d: nat, ghost a: nat)
      requires Valid() && Acceptable(block, source, env) && block.parentHash in index.index
      requires prev == index.index[block.parentHash] && prev in pool
      requires block.height == prev.height + 1 && Digest(block) in store.db.table
      modifies store, view, index, pool, this
      ensures Valid() && |index.queue| <= |old(index.queue)| + 1 && old(pool) <= pool && fresh(pool - old(pool))
      ensures index.index.Keys <=
              old(index.index).Keys + {Digest(block)} + DigestSet(old(PlanFrom(prev, block, source, env)))
      ensures old(ZERO_HASH in index.index && !Evicted(index.index[ZERO_HASH])) ==> ZERO_HASH in index.index
      ensures err.None? <==> old(CanChooseFrom(store.db.table, prev, block, source, env))
      ensures isMain <==> err.None? && old(Attempts(block, env))
      ensures old(Attempts(block, env)) ==>
                && old(LandsFrom(store.db.table, prev, block, source, env, d, a))
                && Moved(old(best), old(history), best, history, d, old(PlanFrom(prev, block, source, env)), a)
                && Now(err) == Leaves(WithNode(old(OutlookFrom(store.db.table, prev, block, source, env)), node, prev,
                                               Digest(block)),
                                      env, d, a)
      ensures !old(Attempts(block, env)) ==>
                && best == old(best) && history == old(history) && (old(Intact()) ==> Intact())
                && Now(err) == Aftermath(Joined(old(Snapshot()), node, prev, Digest(block)), old(view.queue),
                                         old(ChoiceFailure(block)))
                && (err.None? ==> TotalWork(Digest(block)) <= Work(best))
      ensures node in pool && fresh(node) && node.source == source && node.height == block.height
      ensures isMain ==> TipHash(best) == Digest(Finish(source, block, env.exec(block)))
      ensures isMain ==> old(Work(best)) <= Work(best) == TotalWork(Digest(block))
      ensures err.None? && old(Intact() && Settled(prev, env)) ==> Intact()
    {
      hide Valid, ReorgSteps, Path, TotalWork, Work, TipHash, Wins, CanSwitch, CanChooseFrom, Intact, Leaf, SteadySide,
           Settled, Moved, Acceptable, Fresh, FreshSide, Lands, PlanFrom, SidePlan, DigestSet, Side, Fork, Held,
           Snapshot, Joined, OutlookOn, OutlookFrom, WithNode, Leaves;
      var made := IndexBlock(prev, block, source, env);
      node := made;
      if Attempts(block, env) { OutlookOnNew(prev, node, block, source, env); }
      err, isMain, d, a := ConnectBestChain(made, block, env);
    }

    lemma IndexFacts(h: Hash)
      requires Valid() && h in index.index
      ensures index.index[h] in pool && Indexed(index, index.index[h]) && index.index[h].hash == h
      ensures -1 <= index.index[h].height && NodesOk(pool)
      ensures forall i :: 0 <= i < |view.queue| ==> view.queue[i] in pool
    {
      assert ParentBelow(pool, index.index[h]);
    }

    /** Once the block is stored, nothing stands in the way of choosing between its chain and the best one. */
    ghost predicate CanAccept(block: Block, source: Source, env: Env)
      reads this, view, index, store, pool
      requires Valid()
    {
      && block.parentHash in index.index
      && index.index[block.parentHash] in pool
      && CanChooseFrom(store.db.table[Digest(block) := block], index.index[block.parentHash], block, source, env)
    }

    /** How far accepting the block moves the chain: `d` blocks off and `a` of its route on. */
    ghost predicate Arrives(block: Block, source: Source, env: Env, d: nat, a: nat)
      reads this, view, index, store, pool
    {
      && block.parentHash in index.index
      && index.index[block.parentHash] in pool
      && LandsFrom(store.db.table[Digest(block) := block], index.index[block.parentHash], block, source, env, d, a)
    }

    /** The blocks from the fork up to the block, as executing leaves them. */
    ghost function Route(block: Block, source: Source, env: Env): seq<Block>
      reads this, view, index, pool
    {
      if block.parentHash in index.index && index.index[block.parentHash] in pool
      then PlanFrom(index.index[block.parentHash], block, source, env) else []
    }

    /** What moving the chain to the block depends on, once it is stored. */
    ghost function Prospect(block: Block, source: Source, env: Env): Outlook
      reads this, view, index, store, pool
    {
      var table := store.db.table[Digest(block) := block];
      if block.parentHash in index.index && index.index[block.parentHash] in pool
      then OutlookFrom(table, index.index[block.parentHash], block, source, env)
      else Outlook(Snapshot(), view.queue, table, best, -1, [], [], [])
    }

    /** Why the block is turned away before anything is written, if it is. */
    ghost function Refusal(block: Block): Option<Error>
      reads index, store
    {
      if block.parentHash !in index.index then Some(ErrParentBlockNoExist)
      else if block.height != index.index[block.parentHash].height + 1 then Some(ErrBlockHeightNoMatch)
      else if !Storable(block) then Some(ErrHashNotExist)
      else None
    }

    /** Nothing that moving to a block on top of `prev` takes fails to execute or to be undone. */
    ghost predicate Reliable(prev: BlockNode, block: Block, env: Env)
      reads this, view, pool
      requires prev in pool
    {
      && Executes(env, block)
      && (forall i :: 0 <= i < |Side(view, pool, prev)| ==> Executes(env, BlockOf(Side(view, pool, prev)[i])))
      && (forall i :: 0 <= i < |best| && Fork(view, pool, prev).height < i ==> env.undo(best[i]))
    }

    /** Node `i` of a side is stored, has the hash below it as parent hash, and executing its block
        does not change it. */
    static ghost predicate Sits(table: map<Hash, Block>, side: seq<BlockNode>, fork: BlockNode, env: Env, i: nat)
      reads side, fork
      requires i < |side|
    {
      && side[i].hash in table && BlockOf(side[i]).parentHash == Under(fork, side, i).hash
      && Finish(side[i].source, BlockOf(side[i]), env.exec(BlockOf(side[i]))) == BlockOf(side[i])
    }

    /** All nodes of the side of `n` do. */
    ghost predicate Unbroken(n: BlockNode, env: Env)
      reads this, view, store, pool
      requires n in pool && Fork(view, pool, n) in pool
    {
      var side, fork := Side(view, pool, n), Fork(view, pool, n);
      forall i {:trigger Sits(store.db.table, side, fork, env, i)} :: 0 <= i < |side| ==>
        Sits(store.db.table, side, fork, env, i)
    }

    /** With every node anchored, a side that is settled is unbroken. */
    lemma IntactIsUnbroken(n: BlockNode, env: Env)
      requires NodesOk(pool) && n in pool && Intact() && Settled(n, env)
      ensures Fork(view, pool, n) in pool && Unbroken(n, env)
    {
      hide Side, Fork;
      SideFacts(view, pool, n);
      var side, fork := Side(view, pool, n), Fork(view, pool, n);
      BranchHeights(pool, fork, side);
      forall i | 0 <= i < |side|
        ensures Sits(store.db.table, side, fork, env, i)
      {
        assert ParentBelow(pool, fork) && Anchored(store.db.table, pool, side[i]);
        assert side[i].parent == Under(fork, side, i);
      }
    }

    /** If the best chain is to move, nothing fails and executing again changes nothing. */
    ghost predicate Smooth(block: Block, env: Env)
      reads this, view, index, store, pool
    {
      Attempts(block, env) && block.parentHash in index.index ==>
        var prev := index.index[block.parentHash];
        prev in pool && Settled(prev, env) && Reliable(prev, block, env)
    }

    /** The block's total difficulty can be computed. */
    ghost predicate Storable(block: Block)
      reads store
    {
      block.height == 0 || block.parentHash in store.db.td
    }

    /** A genesis block offered to a node that has one. */
    ghost predicate SecondGenesis(block: Block)
      reads this
    {
      block.height == 0 && best != []
    }

    /** Every node anchored, and no stored block above height 0 has more total work than the tip. */
    ghost predicate Healthy()
      reads this, store, pool
    {
      Intact() && Dominant(store.db, best)
    }

    /** Then the tip is maximal exactly if no stored genesis block has more work. */
    lemma HealthyExactly()
      requires Valid() && Healthy()
      ensures Maximal(store.db, best) <==>
              forall b: Block :: b.height == 0 && Digest(b) in store.db.td ==> b.work <= Work(best)
    {
      hide Run, Work, TotalWork;
      EveryRunKeepsInv(store.saveSequence, history);
      forall h | h in store.db.td
        ensures h.Digest? && (h.block.height == 0 ==> store.db.td[h] == h.block.work)
      {
        assert TdExactAt(store.db.td, h);
        TotalWorkStep(h.block);
      }
    }

    /** When all goes smoothly, every stored block is accepted. */
    lemma ReliableAccepts(block: Block, source: Source, env: Env)
      requires Valid() && Acceptable(block, source, env) && Intact() && Smooth(block, env) && !SecondGenesis(block)
      requires block.parentHash in index.index && block.height == index.index[block.parentHash].height + 1
      requires Storable(block)
      ensures CanAccept(block, source, env)
    {
      hide Run, Wins, Closed, Intact, Settled;
      IndexFacts(block.parentHash);
      TipFacts();
      var prev := index.index[block.parentHash];
      GenesisParent(block.parentHash);
      if Compares(block) && Attempts(block, env) {
        IntactIsUnbroken(prev, env);
        SideFacts(view, pool, prev);
        SideAttaches(Side(view, pool, prev), Fork(view, pool, prev), block, source, env);
      }
    }

    /** Only the pre-genesis node has height -1, and its hash is the parent hash of a genesis block. */
    lemma GenesisParent(h: Hash)
      requires Valid() && h in index.index
      ensures index.index[h].height == -1 ==> h == ZERO_HASH
      ensures best == [] ==> TipHash(best) == ZERO_HASH
    {
      IndexFacts(h);
      assert NodeOk(index.index[h]);
    }

    lemma SideAttaches(side: seq<BlockNode>, fork: BlockNode, block: Block, source: Source, env: Env)
      requires Valid() && InPool(side, pool) && fork in pool && view.InView(fork) && Branch(fork, side)
      requires Executes(env, block) && (forall i :: 0 <= i < |side| ==> Executes(env, BlockOf(side[i])))
      requires forall i :: 0 <= i < |best| && fork.height < i ==> env.undo(best[i])
      requires Under(fork, side, |side|).hash == block.parentHash
      requires forall i {:trigger Sits(store.db.table, side, fork, env, i)} :: 0 <= i < |side| ==>
                 Sits(store.db.table, side, fork, env, i)
      ensures CanReorganize(store.db.table[Digest(block) := block], best, fork.height,
                            Plan(side, Held(side), env) + [Finish(source, block, env.exec(block))],
                            Held(side) + [block], env)
    {
      hide Valid, Attaches, Branch, HashLinked;
      TipFacts();
      BranchHeights(pool, fork, side);
      ForkHash(fork);
      HeldLinked(side, fork, env);
      LinkedAttaches(fork.hash, Held(side), block, Finish(source, block, env.exec(block)), env);
    }

    lemma HeldLinked(side: seq<BlockNode>, fork: BlockNode, env: Env)
      requires NodesOk(pool) && InPool(side, pool) && (forall i :: 0 <= i < |side| ==> 0 <= side[i].height)
      requires forall i {:trigger Sits(store.db.table, side, fork, env, i)} :: 0 <= i < |side| ==>
                 Sits(store.db.table, side, fork, env, i)
      ensures HashLinked(fork.hash, Held(side)) && Plan(side, Held(side), env) == Held(side)
      ensures forall i :: 0 <= i < |side| ==> Digest(Held(side)[i]) == side[i].hash && side[i].hash in store.db.table
    {
      var held := Held(side);
      forall i | 0 <= i < |side|
        ensures Digest(held[i]) == side[i].hash && side[i].hash in store.db.table && Plan(side, held, env)[i] == held[i]
      {
        assert NodeOk(side[i]) && Sits(store.db.table, side, fork, env, i);
      }
      forall i | 0 <= i < |side|
        ensures ParentIs(fork.hash, held, i)
      {
        assert Sits(store.db.table, side, fork, env, i);
      }
    }

    lemma ForkHash(fork: BlockNode)
      requires Valid() && view.InView(fork)
      ensures fork.hash == HashAt(best, fork.height)
    {
      hide Run, Closed;
      TipFacts();
      var k :| 0 <= k < |view.queue| && view.queue[k] == fork;
    }

    /** Blocks linked by parent hashes attach if nothing fails and executing changes none but the last. */
    static lemma LinkedAttaches(base: Hash, held: seq<Block>, block: Block, last: Block, env: Env)
      requires Executes(env, block) && (forall i :: 0 <= i < |held| ==> Executes(env, held[i]))
      requires HashLinked(base, held)
      requires block.parentHash == if held == [] then base else Digest(held[|held| - 1])
      ensures Attaches(base, held + [last], held + [block], env)
    {
      var blocks, plan := held + [block], held + [last];
      forall i | 0 <= i < |blocks|
        ensures Joins(base, plan, blocks, env, i)
      {
        if i < |held| { assert blocks[i] == held[i] && ParentIs(base, held, i); }
      }
    }

    /** Storing the block changes neither what its caller owes nor what stands in its way. */
    twostate lemma StillAcceptable(new block: Block, new source: Source, new env: Env)
      requires old(Valid() && Acceptable(block, source, env)) && Valid()
      requires unchanged(view) && unchanged(index) && pool == old(pool) && unchanged(pool) && best == old(best)
      requires store.db.table == old(store.db.table)[Digest(block) := block]
      requires block.parentHash in store.db.td <==> block.parentHash in old(store.db.td)
      requires block.parentHash in index.index && index.index[block.parentHash] in pool
      ensures Acceptable(block, source, env) && Attempts(block, env) == old(Attempts(block, env))
      ensures CanChooseFrom(store.db.table, index.index[block.parentHash], block, source, env) ==
              old(CanAccept(block, source, env))
      ensures forall d: nat, a: nat ::
                LandsFrom(store.db.table, index.index[block.parentHash], block, source, env, d, a) ==
                old(Arrives(block, source, env, d, a))
      ensures PlanFrom(index.index[block.parentHash], block, source, env) == old(Route(block, source, env))
      ensures OutlookFrom(store.db.table, index.index[block.parentHash], block, source, env) ==
              old(Prospect(block, source, env))
      ensures ChoiceFailure(block) == old(ChoiceFailure(block)) && Snapshot() == old(Snapshot())
    {
      hide Run, NodesOk, HoldsChain, ViewIndexed, ChainView.Valid, BlockIndex.Valid, IndexOk, TipHash, Forkable, Side,
           Fork, Chooses, Wins, Plan, Lands, Evicted, Links;
    }

    /** Store a block of the right height, index it and choose between the chains. */
    method StoreAndConnect(prev: BlockNode, block: Block, source: Source, env: Env)
      returns (err: Option<Error>, isMain: bool, ghost stored: bool, ghost node: BlockNode?, ghost d: nat, ghost a: nat)
      requires Valid() && Acceptable(block, source, env) && block.parentHash in index.index
      requires prev == index.index[block.parentHash] && block.height == prev.height + 1
      modifies store, view, index, pool, this
      ensures Valid() && |index.queue| <= |old(index.queue)| + 1 && old(pool) <= pool && fresh(pool - old(pool))
      ensures index.index.Keys <= old(index.index).Keys + {Digest(block)} + DigestSet(old(Route(block, source, env)))
      ensures old(ZERO_HASH in index.index && !Evicted(index.index[ZERO_HASH])) ==> ZERO_HASH in index.index
      ensures stored <==> block.height == 0 || block.parentHash in old(store.db).td
      ensures !stored ==> best == old(best) && history == old(history) && store.db == old(store.db)
      ensures !stored ==> Now(err) == old(Now(Some(ErrHashNotExist)))
      ensures stored ==> node != null && node in pool && fresh(node) && node.source == source
      ensures stored ==> node.height == block.height
      ensures err.None? <==> stored && old(CanAccept(block, source, env))
      ensures isMain <==> err.None? && old(Attempts(block, env))
      ensures stored && old(Attempts(block, env)) ==>
                && old(Arrives(block, source, env, d, a))
                && Moved(old(best), old(history) + [Store(block)], best, history, d, old(Route(block, source, env)), a)
                && Now(err) ==
                   Leaves(WithNode(old(Prospect(block, source, env)), node, prev, Digest(block)), env, d, a)
      ensures stored && !old(Attempts(block, env)) ==>
                && best == old(best) && history == old(history) + [Store(block)]
                && Now(err) == Aftermath(Joined(old(Snapshot()), node, prev, Digest(block)), old(view.queue),
                                         old(ChoiceFailure(block)))
                && (err.None? ==> TotalWork(Digest(block)) <= Work(best))
      ensures isMain ==> TipHash(best) == Digest(Finish(source, block, env.exec(block)))
      ensures isMain ==> old(Work(best)) <= Work(best) == TotalWork(Digest(block))
      ensures old(Intact()) && (!stored || !old(Attempts(block, env))) ==> Intact()
      ensures err.None? && old(Intact() && prev in pool && Settled(prev, env)) ==> Intact()
    {
      hide Valid, Acceptable, CanAccept, CanChooseFrom, Arrives, LandsFrom, Route, PlanFrom, Attempts, TotalWork, Work,
           TipHash, Intact, Settled, Moved, DigestSet, Evicted, Snapshot, Prospect, OutlookFrom, WithNode, Leaves,
           Joined, ChoiceFailure;
      isMain, stored, node, d, a := false, false, null, 0, 0;
      IndexFacts(block.parentHash);
      var ok := StoreBlock(block);
      if old(Intact()) { SameNodes(); }
      if !ok {
        return Some(ErrHashNotExist), isMain, stored, node, d, a;
      }
      stored := true;
      StillAcceptable(block, source, env);
      err, isMain, node, d, a := IndexAndConnect(prev, block, source, env);
    }

    /** A second genesis block finds no total difficulty for its parent. */
    lemma GenesisRefused(block: Block, source: Source, env: Env)
      requires Valid() && block.parentHash in index.index && block.height == index.index[block.parentHash].height + 1
      requires SecondGenesis(block)
      ensures !Attempts(block, env) && !CanAccept(block, source, env)
    {
      hide Run;
      GenesisParent(block.parentHash);
      EveryRunKeepsInv(store.saveSequence, history);
      OnlyBlocks(store.db);
    }

    /** A block that the chain moves to was executed. */
    lemma ChosenExecutes(block: Block, source: Source, env: Env)
      requires Valid() && CanAccept(block, source, env) && Attempts(block, env)
      ensures Executes(env, block)
    {
      hide Valid, Side, Fork, Held, Wins, Plan;
      if block.parentHash != TipHash(best) {
        var prev := index.index[block.parentHash];
        var plan, blocks := PlanFrom(prev, block, source, env), Held(Side(view, pool, prev)) + [block];
        assert Joins(HashAt(best, Fork(view, pool, prev).height), plan, blocks, env, |blocks| - 1);
      }
    }

    /** Nothing at height 0 comes off. */
    lemma ArrivesAbove(block: Block, source: Source, env: Env)
      requires Valid() && Acceptable(block, source, env) && Attempts(block, env) && block.parentHash in index.index
      ensures forall d: nat, a: nat :: Arrives(block, source, env, d, a) && best != [] ==> d < |best|
    {
      hide Valid, Side, Fork, Acceptable;
      AttemptStays(block, source, env);
    }

    /** What can be foreseen of a block of the right height. */
    lemma Foreseen(block: Block, source: Source, env: Env)
      requires Valid() && Acceptable(block, source, env)
      requires block.parentHash in index.index && block.height == index.index[block.parentHash].height + 1
      ensures Intact() && Smooth(block, env) && !SecondGenesis(block) && Storable(block) ==>
                CanAccept(block, source, env)
      ensures SecondGenesis(block) ==> block.height == 0 && !Attempts(block, env) && !CanAccept(block, source, env)
      ensures CanAccept(block, source, env) && Attempts(block, env) ==> Executes(env, block)
      ensures Smooth(block, env) && Attempts(block, env) ==>
                var prev := index.index[block.parentHash];
                prev in pool && Settled(prev, env)
      ensures Attempts(block, env) && best != [] ==>
                forall d: nat, a: nat :: Arrives(block, source, env, d, a) ==> d < |best|
    {
      hide Valid, Acceptable, CanAccept, Arrives, Attempts, Intact, Settled, Reliable;
      if Intact() && Smooth(block, env) && !SecondGenesis(block) && Storable(block) {
        ReliableAccepts(block, source, env);
      }
      if SecondGenesis(block) { GenesisRefused(block, source, env); }
      if CanAccept(block, source, env) && Attempts(block, env) { ChosenExecutes(block, source, env); }
      if Attempts(block, env) { ArrivesAbove(block, source, env); }
    }

    lemma StillMaximal(c0: Chain, before: seq<Step>, block: Block, d: nat, route: seq<Block>, a: nat)
      requires StoreOk(store, history, best) && Run(store.saveSequence, before) == Some(c0)
      requires Moved(c0.best, before + [Store(block)], best, history, d, route, a)
      requires Work(c0.best) <= Work(best) && TotalWork(Digest(block)) <= Work(best)
      ensures Maximal(c0.db, c0.best) ==> Maximal(store.db, best)
      ensures Dominant(c0.db, c0.best) ==> Dominant(store.db, best)
    {
      hide Run, Work, TotalWork, Maximal, Dominant;
      TdAfterReorg(store.saveSequence, before + [Store(block)], d, route[..a]);
      MaximalAfter(store.saveSequence, before, c0, block, Chain(store.db, best), d, route[..a]);
    }

    /** After a batch that only stores the block. */
    lemma OnlyStored(c0: Chain, before: seq<Step>, block: Block)
      requires StoreOk(store, history, best) && Run(store.saveSequence, before) == Some(c0)
      requires best == c0.best && history == before + [Store(block)]
      ensures Maximal(c0.db, best) ==> (Maximal(store.db, best) <==> TotalWork(Digest(block)) <= Work(best))
      ensures Dominant(c0.db, best) && (block.height == 0 || TotalWork(Digest(block)) <= Work(best)) ==>
                Dominant(store.db, best)
    {
      hide Run, Work, TotalWork;
      RunPop(store.saveSequence, before, Store(block));
      RunPush(store.saveSequence, before, Store(block));
      EveryRunKeepsInv(store.saveSequence, before);
      TdComputed(c0.db, block);
      if Maximal(c0.db, best) { StoreKeepsMaximalExactly(c0.db, best, block); }
    }

    /** What accepting a block does to the lead of the tip, whether it was stored or not (`stored`), succeeded
        or not (`ok`), and was to move the chain or not (`moves`). */
    lemma WorkAfter(c0: Chain, before: seq<Step>, block: Block, stored: bool, ok: bool, moves: bool, d: nat,
                    route: seq<Block>, a: nat)
      requires StoreOk(store, history, best) && Run(store.saveSequence, before) == Some(c0)
      requires !stored ==> store.db == c0.db && best == c0.best
      requires stored && moves ==> Moved(c0.best, before + [Store(block)], best, history, d, route, a)
      requires stored && !moves ==> best == c0.best && history == before + [Store(block)]
      requires stored && ok ==> Work(c0.best) <= Work(best) && TotalWork(Digest(block)) <= Work(best)
      ensures Maximal(c0.db, c0.best) && (stored ==> ok) ==> Maximal(store.db, best)
      ensures Maximal(c0.db, c0.best) && stored && !moves ==>
                (Maximal(store.db, best) <==> TotalWork(Digest(block)) <= Work(c0.best))
      ensures Dominant(c0.db, c0.best) && (stored ==> ok || (!moves && block.height == 0)) ==> Dominant(store.db, best)
      ensures c0.best != [] && (stored && moves ==> d < |c0.best|) ==> best != [] && best[0] == c0.best[0]
    {
      hide Run, StoreOk, Work, TotalWork, Maximal, Dominant, Moved;
      if stored && moves && d < |c0.best| {
        MovedAbove(c0.best, before + [Store(block)], best, history, d, route, a);
      }
      if stored && moves && ok { StillMaximal(c0, before, block, d, route, a); }
      if stored && !moves { OnlyStored(c0, before, block); }
    }

    lemma NewBlock(block: Block, source: Source, env: Env)
      requires Valid() && Acceptable(block, source, env)
      ensures Digest(block) !in index.index && |index.queue| <= INDEX_CACHE_LIMIT
    {
      QueueFacts();
    }

    /** A block that does not move the chain is indexed under its hash, on top of its parent. */
    lemma SideIndexed(was: Graph, node: BlockNode, prev: BlockNode, hash: Hash)
      requires node in pool && node !in was.queue && hash !in was.index && Snapshot() == Joined(was, node, prev, hash)
      ensures hash in index.index && index.index[hash] == node && node.parent == prev && node.hash == hash
      ensures forall h :: h in was.index && was.index[h] != node
                          && (|was.queue| >= INDEX_CACHE_LIMIT ==> was.index[h] != was.queue[0]) ==>
                            h in index.index && index.index[h] == was.index[h]
    {
      hide Links, Joined;
      LinkAt(node);
      JoinedKeeps(was, node, prev, hash);
    }

    /** Accept a block whose parent is known: store it, index it and choose between the chains.  It
        succeeds exactly if nothing stands in the way, and in any case moves the chain along the route of
        the block as far as the two loops get.  Through any run in which all goes smoothly no stored block
        above height 0 has more total work than the tip, and the tip stays maximal exactly if no second
        genesis block brings more. */
    method MaybeAcceptBlock(block: Block, source: Source, env: Env)
      returns (err: Option<Error>, isMain: bool, ghost stored: bool, ghost node: BlockNode?, ghost d: nat, ghost a: nat)
      requires Valid() && Acceptable(block, source, env)
      modifies store, view, index, pool, this
      ensures Valid() && |index.queue| <= |old(index.queue)| + 1 && old(pool) <= pool && fresh(pool - old(pool))
      ensures index.index.Keys <= old(index.index).Keys + {Digest(block)} + DigestSet(old(Route(block, source, env)))
      ensures old(ZERO_HASH in index.index && !Evicted(index.index[ZERO_HASH])) ==> ZERO_HASH in index.index
      ensures stored <==> && block.parentHash in old(index.index)
                          && block.height == old(index.index[block.parentHash].height) + 1
                          && (block.height == 0 || block.parentHash in old(store.db).td)
      ensures !stored ==> best == old(best) && history == old(history) && Now(err) == old(Now(Refusal(block)))
      ensures stored ==> node != null && node in pool && fresh(node) && node.source == source
      ensures stored ==> node.height == block.height
      ensures err.None? <==> stored && old(CanAccept(block, source, env))
      ensures isMain <==> err.None? && old(Attempts(block, env))
      ensures isMain ==> TipHash(best) == Digest(Finish(source, block, env.exec(block)))
      ensures isMain ==> best != [] && Carries(best[|best| - 1], source, block, env.exec(block))
      ensures stored && old(Attempts(block, env)) ==>
                && old(Arrives(block, source, env, d, a))
                && Moved(old(best), old(history) + [Store(block)], best, history, d, old(Route(block, source, env)), a)
                && Now(err) == Leaves(WithNode(old(Prospect(block, source, env)), node,
                                               old(index.index[block.parentHash]), Digest(block)),
                                      env, d, a)
      ensures stored && !old(Attempts(block, env)) ==>
                && best == old(best) && history == old(history) + [Store(block)]
                && Now(err) == Aftermath(Joined(old(Snapshot()), node, old(index.index[block.parentHash]),
                                                Digest(block)),
                                         old(view.queue), old(ChoiceFailure(block)))
                && Digest(block) in index.index && index.index[Digest(block)] == node
                && node.parent == old(index.index[block.parentHash]) && node.hash == Digest(block)
                && (forall h :: h in old(index.index) && !old(Evicted(index.index[h])) ==>
                      h in index.index && index.index[h] == old(index.index[h]))
      ensures old(best) != [] ==> best != [] && best[0] == old(best)[0]
      ensures err.None? && !isMain ==> TotalWork(Digest(block)) <= Work(best)
      ensures isMain ==> old(Work(best)) <= Work(best) == TotalWork(Digest(block))
      ensures old(Maximal(store.db, best)) && (stored ==> old(CanAccept(block, source, env))) ==>
                Maximal(store.db, best)
      ensures stored && old(SecondGenesis(block)) ==>
                && err.Some? && !old(Attempts(block, env))
                && (old(Maximal(store.db, best)) ==>
                      (Maximal(store.db, best) <==> TotalWork(Digest(block)) <= old(Work(best))))
      ensures old(Healthy() && Smooth(block, env)) ==>
                Healthy() && (stored ==> (err.None? <==> !old(SecondGenesis(block))))
      ensures old(Healthy() && Smooth(block, env) && Maximal(store.db, best)) ==>
                (Maximal(store.db, best) <==>
                 (stored && old(SecondGenesis(block)) ==> TotalWork(Digest(block)) <= old(Work(best))))
    {
      hide Valid, Acceptable, CanAccept, Arrives, Route, TotalWork, Work, Carries, Maximal, Dominant, Wins, Intact,
           Settled, Reliable, Attempts, DigestSet, Moved, Run, StoreOk, NodesOk, Smooth, SecondGenesis, Links,
           Prospect, WithNode, Leaves, Joined, ChoiceFailure;
      isMain, stored, node, d, a := false, false, null, 0, 0;
      var prev := index.LookupNode(block.parentHash);
      if prev == null {
        return Some(ErrParentBlockNoExist), isMain, stored, node, d, a;
      }
      if block.height != prev.height + 1 {
        return Some(ErrBlockHeightNoMatch), isMain, stored, node, d, a;
      }
      Foreseen(block, source, env);
      TipFacts();
      ghost var c0, route := Chain(store.db, best), Route(block, source, env);
      NewBlock(block, source, env);
      ghost var was := Snapshot();
      err, isMain, stored, node, d, a := StoreAndConnect(prev, block, source, env);
      TipFacts();
      if isMain { FinishCarries(Finish(source, block, env.exec(block)), source, block, env.exec(block)); }
      if stored && !old(Attempts(block, env)) { SideIndexed(was, node, prev, Digest(block)); }
      WorkAfter(c0, old(history), block, stored, err.None?, old(Attempts(block, env)), d, route, a);
    }

    /** What holds when a genesis block from elsewhere is offered. */
    lemma GenesisOffered(g: Block, env: Env)
      requires Valid() && g.height == 0 && g.parentHash == ZERO_HASH && ZERO_HASH in index.index
      requires Digest(g) !in index.index && |index.queue| < INDEX_CACHE_LIMIT
      ensures Acceptable(g, Peer, env) && index.index[ZERO_HASH].height == -1
      ensures best == [] && Executes(env, g) ==> Smooth(g, env) && Attempts(g, env) && Route(g, Peer, env) == [g]
      ensures best != [] ==> Smooth(g, env)
    {
      hide Run;
      IndexFacts(ZERO_HASH);
      TipFacts();
      assert NodeOk(index.index[ZERO_HASH]);
      EveryRunKeepsInv(store.saveSequence, history);
      OnlyBlocks(store.db);
      SideOfTip();
      assert Indexed(index, view.queue[0]);
    }
  }

  /** A chain that ends at height 0 is one block long. */
  lemma OneGenesis(chain: BlockChain, g: Block)
    requires chain.Valid() && g.height == 0 && TipHash(chain.best) == Digest(g)
    ensures chain.best == [g] && Work(chain.best) == g.work
  {
    hide Run;
    chain.StoreFacts();
    WorkPush([], g);
    assert [] + [g] == [g];
  }

  /** Two genesis blocks offered to an empty node, of which the second has more work: nothing fails to
      execute, but the tip is not maximal afterwards. */
  method TwoGenesisBlocks() returns (chain: BlockChain)
    ensures chain.Valid() && chain.Healthy()
    ensures chain.best == [Block(ZERO_HASH, 0, 1, "", [])] && !Maximal(chain.store.db, chain.best)
  {
    hide BlockChain.Valid, BlockChain.Healthy, BlockChain.Smooth, BlockChain.Acceptable, BlockChain.CanAccept,
         BlockChain.Arrives, BlockChain.Attempts, BlockChain.Route, BlockChain.Now, BlockChain.Prospect, Leaves,
         WithNode, Joined, Maximal, Moved;
    var first, second := Block(ZERO_HASH, 0, 1, "", []), Block(ZERO_HASH, 0, 2, "", []);
    var env := Env((b: Block) => Executed(b.stateHash, b.txs, true), (b: Block) => true, false);
    chain := new BlockChain(true);
    chain.GenesisOffered(first, env);
    var err, isMain, stored, node, d, a := chain.MaybeAcceptBlock(first, Peer, env);
    OneGenesis(chain, first);
    chain.GenesisOffered(second, env);
    err, isMain, stored, node, d, a := chain.MaybeAcceptBlock(second, Peer, env);
    TotalWorkStep(second);
  }
}
