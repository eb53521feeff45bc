/** The in-memory side of the chain: block nodes linked by parent pointers, the view of the
    best chain's most recent nodes, and the index of all known nodes. */
module ChainViews {
  import opened Blocks

  const BLOCK_NODE_CACHE_LIMIT: nat := 10240
  const INDEX_CACHE_LIMIT: nat := 102400

  /** Where a block came from; only a self-made block may be changed by executing it. */
  datatype Source = Self | Download | Peer

  class BlockNode {
    var parent: BlockNode?
    var hash: Hash
    const height: int
    const work: nat
    const source: Source

    constructor (parent: BlockNode?, hash: Hash, height: int, work: nat, source: Source)
      ensures this.parent == parent && this.hash == hash
      ensures this.height == height && this.work == work && this.source == source
    {
      this.parent, this.hash, this.height, this.work, this.source := parent, hash, height, work, source;
    }

    /** The node at `height` on this node's parent path. */
    method Ancestor(height: int, ghost pool: set<BlockNode>) returns (a: BlockNode?)
      requires Closed(pool) && this in pool
      ensures a == if 0 <= height <= this.height && this.height - height < |Path(pool, this)|
                   then Path(pool, this)[this.height - height] else null
    {
      if height < 0 || height > this.height {
        return null;
      }
      a := this;
      ghost var path := Path(pool, this);
      ghost var k := 0;
      PathFacts(pool, this);
      while a != null && a.height != height
        invariant 0 <= k <= |path| && k <= this.height - height
        invariant a == NodeAt(path, k)
        decreases |path| - k
      {
        assert path[k].parent == NodeAt(path, k + 1);
        a := a.parent;
        k := k + 1;
      }
    }
  }

  /** A set of nodes that contains their parents, each one lower than its child. */
  ghost predicate Closed(pool: set<BlockNode>)
    reads pool
  {
    forall n {:trigger ParentBelow(pool, n)} :: n in pool ==> ParentBelow(pool, n)
  }

  ghost predicate ParentBelow(pool: set<BlockNode>, n: BlockNode)
    reads n
  {
    && -1 <= n.height
    && (n.parent != null ==> n.parent in pool && n.parent.height == n.height - 1)
  }

  /** Cutting parent pointers and adding well-placed nodes keeps a pool closed. */
  twostate lemma ClosedKept(pool: set<BlockNode>, new pool': set<BlockNode>)
    requires old(Closed(pool)) && pool <= pool'
    requires forall n :: n in pool ==> n.parent == old(n.parent) || n.parent == null
    requires forall n :: n in pool' - pool ==> ParentBelow(pool', n)
    ensures Closed(pool')
  {
    forall n | n in pool'
      ensures ParentBelow(pool', n)
    {
      if n in pool { assert old(ParentBelow(pool, n)); }
    }
  }

  /** A node and its ancestors, the node first. */
  ghost function Path(pool: set<BlockNode>, n: BlockNode): (path: seq<BlockNode>)
    requires Closed(pool) && n in pool
    reads pool
    ensures path != [] && path[0] == n
    decreases n.height + 1
  {
    assert ParentBelow(pool, n);
    if n.parent == null then [n]
    else
      assert ParentBelow(pool, n.parent);
      [n] + Path(pool, n.parent)
  }

  ghost function NodeAt(path: seq<BlockNode>, i: nat): BlockNode? {
    if i < |path| then path[i] else null
  }

  lemma {:induction false} PathFacts(pool: set<BlockNode>, n: BlockNode)
    requires Closed(pool) && n in pool
    ensures forall i :: 0 <= i < |Path(pool, n)| ==> Path(pool, n)[i] in pool && Path(pool, n)[i].height == n.height - i
    ensures forall i :: 0 <= i < |Path(pool, n)| ==> Path(pool, n)[i].parent == NodeAt(Path(pool, n), i + 1)
    decreases n.height + 1
  {
    assert ParentBelow(pool, n);
    if n.parent != null {
      assert ParentBelow(pool, n.parent);
      PathFacts(pool, n.parent);
    }
  }

  /** The part of a queue, newest node first, that fits in the view. */
  function Newest(queue: seq<BlockNode>): seq<BlockNode> {
    if |queue| <= BLOCK_NODE_CACHE_LIMIT then queue else queue[..BLOCK_NODE_CACHE_LIMIT]
  }

  /** A parent-linked run of consecutive heights, the highest node in front, that `nodes` lists by height. */
  ghost predicate IsView(queue: seq<BlockNode>, nodes: map<int, BlockNode>)
    reads queue
  {
    && |queue| <= BLOCK_NODE_CACHE_LIMIT
    && (forall i :: 0 <= i < |queue| ==> queue[i].height == queue[0].height - i)
    && (forall i :: 0 <= i < |queue| - 1 ==> queue[i].parent == queue[i + 1])
    && (forall h :: h in nodes <==> queue != [] && queue[0].height - |queue| < h <= queue[0].height)
    && (forall h :: h in nodes ==> nodes[h] == queue[queue[0].height - h])
  }

  lemma ListedHeights(queue: seq<BlockNode>, nodes: map<int, BlockNode>)
    requires IsView(queue, nodes)
    ensures forall h :: h in nodes <==> queue != [] && queue[0].height - |queue| < h <= queue[0].height
  {
  }

  lemma TailIsView(queue: seq<BlockNode>, nodes: map<int, BlockNode>)
    requires queue != [] && IsView(queue, nodes)
    ensures IsView(queue[1..], nodes - {queue[0].height})
  {
    var tail := queue[1..];
    forall i | 0 <= i < |tail|
      ensures tail[i] == queue[i + 1] && tail[i].height == tail[0].height - i
    {
      assert queue[i + 1].height == queue[0].height - (i + 1);
    }
    forall h | h in nodes - {queue[0].height}
      ensures nodes[h] == tail[tail[0].height - h]
    {
      assert nodes[h] == queue[queue[0].height - h];
    }
  }

  /** The newest nodes of the best chain, the tip in front. */
  class ChainView {
    var queue: seq<BlockNode>
    var nodes: map<int, BlockNode>

    ghost predicate Valid()
      reads this, queue
    {
      IsView(queue, nodes)
    }

    constructor (tip: BlockNode)
      ensures Valid() && queue == [tip]
    {
      queue, nodes := [tip], map[tip.height := tip];
    }

    function Tip(): BlockNode?
      reads this
    {
      if queue == [] then null else queue[0]
    }

    function Height(): int
      reads this
    {
      if queue == [] then -1 else queue[0].height
    }

    function NodeByHeight(height: int): (n: BlockNode?)
      reads this, queue
      requires Valid()
      ensures n != null ==> n in queue && n.height == height
    {
      if height < 0 || height > Height() then null
      else if height in nodes then nodes[height] else null
    }

    /** One of the cached nodes, other than the pre-genesis node. */
    ghost predicate InView(node: BlockNode)
      reads this
    {
      node in queue && 0 <= node.height
    }

    /** The height lookup decides membership of the view, by node identity. */
    predicate Contains(node: BlockNode)
      reads this, queue
      requires Valid()
      ensures Contains(node) <==> InView(node)
    {
      assert node in queue ==> exists i :: 0 <= i < |queue| && queue[i] == node;
      NodeByHeight(node.height) == node
    }

    /** Push a new tip; a node whose parent is not the tip is refused, and the oldest node is
        dropped when the view is full. */
    method SetTip(node: BlockNode)
      requires Valid()
      requires queue != [] && node.parent == queue[0] ==> node.height == queue[0].height + 1
      modifies this
      ensures Valid()
      ensures old(queue) != [] && node.parent != old(queue)[0] ==> queue == old(queue)
      ensures old(queue) == [] || node.parent == old(queue)[0] ==> queue == Newest([node] + old(queue))
    {
      if queue != [] && node.parent != queue[0] {
        return;
      }
      queue := [node] + queue;
      nodes := nodes[node.height := node];
      if |queue| > BLOCK_NODE_CACHE_LIMIT {
        var height := queue[|queue| - 1].height;
        queue := queue[..|queue| - 1];
        nodes := nodes - {height};
      }
    }

    /** Remove the node cached at `node`'s height; on the tip this keeps the view well formed. */
    method DelTip(node: BlockNode)
      requires Valid()
      modifies this
      ensures node.height !in old(nodes) ==> queue == old(queue) && nodes == old(nodes)
      ensures node.height in old(nodes) ==>
                var i := old(queue)[0].height - node.height;
                queue == old(queue)[..i] + old(queue)[i + 1..] && nodes == old(nodes) - {node.height}
      ensures old(queue) != [] && old(queue)[0] == node ==> Valid() && queue == old(queue)[1..]
    {
      hide IsView;
      ListedHeights(queue, nodes);
      if node.height in nodes {
        var i := queue[0].height - node.height;
        if i == 0 { TailIsView(queue, nodes); }
        queue := queue[..i] + queue[i + 1..];
        nodes := nodes - {node.height};
        assert i == 0 ==> queue == old(queue)[1..];
      }
    }

    /** The highest node that `node`'s parent path shares with the view, if there is one. */
    method FindFork(node: BlockNode, ghost pool: set<BlockNode>) returns (fork: BlockNode?)
      requires Valid() && Closed(pool) && node in pool
      ensures fork == null ==> forall a :: a in Path(pool, node) ==> !InView(a)
      ensures fork != null ==> fork in Path(pool, node) && InView(fork)
      ensures fork != null ==> forall a :: a in Path(pool, node) && InView(a) ==> a.height <= fork.height
    {
      hide Path, Closed;
      ghost var path := Path(pool, node);
      ghost var k := 0;
      PathFacts(pool, node);
      fork := node;
      var chainHeight := Height();
      if node.height > chainHeight {
        fork := node.Ancestor(chainHeight, pool);
        k := if fork == null then |path| else node.height - chainHeight;
        assert forall i :: 0 <= i < |queue| ==> queue[i].height <= chainHeight;
      }
      while fork != null && !Contains(fork)
        invariant 0 <= k <= |path|
        invariant fork == NodeAt(path, k)
        invariant forall j :: 0 <= j < k ==> !InView(path[j])
        decreases |path| - k
      {
        assert path[k].parent == NodeAt(path, k + 1);
        fork := fork.parent;
        k := k + 1;
      }
    }
  }

  /** Taking one position out of a list without repetitions takes out exactly that element. */
  lemma RemovedOnce<T>(q: seq<T>, i: nat)
    requires i < |q|
    requires forall j, k :: 0 <= j < k < |q| ==> q[j] != q[k]
    ensures forall m :: m in RemoveAt(q, i) <==> m in q && m != q[i]
    ensures forall j, k :: 0 <= j < k < |RemoveAt(q, i)| ==> RemoveAt(q, i)[j] != RemoveAt(q, i)[k]
  {
    var r := RemoveAt(q, i);
    forall m | m in q && m != q[i]
      ensures m in r
    {
      var j :| 0 <= j < |q| && q[j] == m;
      assert r[if j < i then j else j - 1] == m;
    }
  }

  /** The map and the queue hold the same nodes, each once and under its own hash. */
  ghost predicate IsIndex(queue: seq<BlockNode>, index: map<Hash, BlockNode>)
    reads queue
  {
    && (forall i :: 0 <= i < |queue| ==> queue[i].hash in index && index[queue[i].hash] == queue[i])
    && (forall h :: h in index ==> index[h] in queue && index[h].hash == h)
    && (forall i, j :: 0 <= i < j < |queue| ==> queue[i] != queue[j])
  }

  lemma IndexWithout(queue: seq<BlockNode>, index: map<Hash, BlockNode>, i: nat)
    requires IsIndex(queue, index) && i < |queue|
    ensures IsIndex(RemoveAt(queue, i), index - {queue[i].hash})
    ensures forall m :: m in RemoveAt(queue, i) <==> m in queue && m != queue[i]
  {
    RemovedOnce(queue, i);
    forall h | h in index - {queue[i].hash}
      ensures index[h] in RemoveAt(queue, i)
    {
      assert index[h] in queue && index[h].hash == h;
    }
  }

  /** A queue without a node. */
  ghost function Except(queue: seq<BlockNode>, node: BlockNode): seq<BlockNode> {
    if queue == [] then []
    else
      var n := |queue| - 1;
      Except(queue[..n], node) + if queue[n] == node then [] else [queue[n]]
  }

  lemma {:induction false} ExceptNone(queue: seq<BlockNode>, node: BlockNode)
    requires node !in queue
    ensures Except(queue, node) == queue
    decreases |queue|
  {
    if queue != [] { ExceptNone(queue[..|queue| - 1], node); }
  }

  lemma {:induction false} ExceptOne(queue: seq<BlockNode>, i: nat)
    requires i < |queue| && forall j, k :: 0 <= j < k < |queue| ==> queue[j] != queue[k]
    ensures Except(queue, queue[i]) == RemoveAt(queue, i)
    decreases |queue|
  {
    var n := |queue| - 1;
    if i == n {
      assert queue[n] !in queue[..n];
      ExceptNone(queue[..n], queue[n]);
      assert RemoveAt(queue, n) == queue[..n];
    } else {
      ExceptOne(queue[..n], i);
      assert queue[..n][i] == queue[i];
      assert RemoveAt(queue, i) == RemoveAt(queue[..n], i) + [queue[n]];
    }
  }

  /** All known nodes by hash, in arrival order. */
  class BlockIndex {
    var index: map<Hash, BlockNode>
    var queue: seq<BlockNode>

    ghost predicate Valid()
      reads this, queue
    {
      IsIndex(queue, index)
    }

    constructor (node: BlockNode)
      ensures Valid() && queue == [node] && index == map[node.hash := node]
    {
      var nodes: map<Hash, BlockNode> := map[];
      nodes := nodes[node.hash := node];
      queue, index := [node], nodes;
    }

    function LookupNode(hash: Hash): BlockNode?
      reads this
    {
      if hash in index then index[hash] else null
    }

    /** Take the node at queue position `i` out and cut it off from its parent. */
    method RemoveSlot(i: nat)
      requires i < |queue|
      modifies this, {queue[i]}`parent
      ensures queue == old(queue)[..i] + old(queue)[i + 1..]
      ensures index == old(index) - {old(queue[i].hash)}
      ensures old(queue)[i].parent == null
      ensures old(Valid()) ==> Valid() && forall m :: m in queue <==> m in old(queue) && m != old(queue)[i]
    {
      hide IsIndex;
      var n := queue[i];
      if Valid() { IndexWithout(queue, index, i); }
      queue := RemoveAt(queue, i);
      n.parent := null;
      index := index - {n.hash};
    }

    method Append(node: BlockNode)
      modifies this
      ensures queue == old(queue) + [node] && index == old(index)[node.hash := node]
      ensures old(Valid() && node.hash !in index) ==> Valid()
    {
      queue := queue + [node];
      assert forall m :: m in queue <==> m in old(queue) || m == node;
      index := index[node.hash := node];
    }

    /** Add a node; when the index is full the oldest node is dropped and cut off from its parent.  Under
        a new hash this keeps the index well formed. */
    method AddNode(node: BlockNode)
      requires |queue| <= INDEX_CACHE_LIMIT
      modifies this, (if |queue| == INDEX_CACHE_LIMIT then {queue[0]} else {})`parent
      ensures |queue| <= INDEX_CACHE_LIMIT && (old(Valid() && node.hash !in index) ==> Valid())
      ensures old(|queue|) < INDEX_CACHE_LIMIT ==>
                index == old(index)[node.hash := node] && queue == old(queue) + [node]
      ensures old(|queue|) == INDEX_CACHE_LIMIT ==>
                var first := old(queue)[0];
                && index == old(index)[node.hash := node] - {old(queue[0].hash)}
                && queue == old(queue)[1..] + [node]
                && first.parent == null
    {
      Append(node);
      if |queue| > INDEX_CACHE_LIMIT {
        RemoveSlot(0);
      }
    }

    /** Put a node in the place of the one stored under `hash`, and store it under its own hash instead. */
    method UpdateNode(hash: Hash, node: BlockNode) returns (ok: bool)
      requires hash in index ==> index[hash] in queue
      modifies this
      ensures ok == (hash in old(index))
      ensures index == if ok then (old(index) - {hash})[node.hash := node] else old(index)
      ensures !ok || old(index)[hash] == node ==> queue == old(queue)
      ensures ok ==>
                exists i :: 0 <= i < |old(queue)| && old(queue)[i] == old(index)[hash] && queue == old(queue)[i := node]
    {
      if hash !in index {
        return false;
      }
      var i :| 0 <= i < |queue| && queue[i] == index[hash];
      queue := queue[i := node];
      index := index - {hash};
      index := index[node.hash := node];
      return true;
    }

    /** Remove the node stored under `hash` and cut it off from its parent. */
    method DelNode(hash: Hash)
      requires Valid()
      modifies this, (if hash in index then {index[hash]} else {})`parent
      ensures Valid()
      ensures hash !in old(index) ==> index == old(index) && queue == old(queue)
      ensures hash in old(index) ==>
                var n := old(index)[hash];
                && n.parent == null
                && index == old(index) - {hash}
                && (forall m :: m in queue <==> m in old(queue) && m != n)
                && queue == Except(old(queue), n) && |queue| == |old(queue)| - 1
    {
      if hash in index {
        var i :| 0 <= i < |queue| && queue[i] == index[hash];
        ExceptOne(queue, i);
        RemoveSlot(i);
      }
    }
  }
}
