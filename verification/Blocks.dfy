/** Blocks, hashes, ancestry and total work.

    A hash is either the digest of a block or a bit string that no known block
    hashes to.  Because `Digest` is a datatype constructor, hashing is injective
    and the parent relation is well founded, which is all the chain code relies on. */
module Blocks {

  datatype Option<+T> = None | Some(value: T)

  datatype Tx = Tx(hash: string, from: string, to: string, fee: int, execer: string, groupCount: int, header: string)

  /** `work` is the value CalcWork gives for the block's difficulty. */
  datatype Block = Block(parentHash: Hash, height: int, work: nat, stateHash: string, txs: seq<Tx>)

  datatype Hash = Opaque(bits: nat) | Digest(block: Block)

  /** A list without the element at position `i`. */
  function RemoveAt<T>(s: seq<T>, i: nat): (r: seq<T>)
    requires i < |s|
    ensures |r| == |s| - 1
    ensures forall j :: 0 <= j < i ==> r[j] == s[j]
    ensures forall j :: i <= j < |r| ==> r[j] == s[j + 1]
  {
    s[..i] + s[i + 1..]
  }

  /** The all-zero hash: the parent of a genesis block and the hash of the pre-genesis node. */
  const ZERO_HASH := Opaque(0)

  /** The blocks from the height-0 ancestor (if there is one) up to the block hashed by `h`. */
  function Ancestry(h: Hash): seq<Block> {
    match h
    case Opaque(_) => []
    case Digest(b) => (if b.height == 0 then [] else Ancestry(b.parentHash)) + [b]
  }

  function Work(bs: seq<Block>): nat {
    if bs == [] then 0 else Work(bs[..|bs| - 1]) + bs[|bs| - 1].work
  }

  function TotalWork(h: Hash): nat {
    Work(Ancestry(h))
  }

  function TipHash(best: seq<Block>): Hash {
    if best == [] then ZERO_HASH else Digest(best[|best| - 1])
  }

  function Hashes(bs: seq<Block>): (hs: seq<Hash>)
    ensures |hs| == |bs|
    ensures forall i :: 0 <= i < |bs| ==> hs[i] == Digest(bs[i])
  {
    seq(|bs|, i requires 0 <= i < |bs| => Digest(bs[i]))
  }

  /** `b` may be put on top of `best`: next height, and the tip's hash as parent hash. */
  predicate Extends(best: seq<Block>, b: Block) {
    b.height == |best| && b.parentHash == TipHash(best)
  }

  /** A chain from genesis: every block extends the blocks before it. */
  ghost predicate Linked(best: seq<Block>) {
    forall i :: 0 <= i < |best| ==> Extends(best[..i], best[i])
  }

  lemma LinkedPrefix(best: seq<Block>, n: nat)
    requires Linked(best) && n <= |best|
    ensures Linked(best[..n])
  {
    forall i | 0 <= i < n
      ensures Extends(best[..n][..i], best[..n][i])
    {
      assert best[..n][..i] == best[..i];
    }
  }

  lemma LinkedPush(best: seq<Block>, b: Block)
    requires Linked(best) && Extends(best, b)
    ensures Linked(best + [b])
  {
    forall i | 0 <= i < |best| + 1
      ensures Extends((best + [b])[..i], (best + [b])[i])
    {
      assert (best + [b])[..i] == best[..i];
      if i == |best| { assert best[..i] == best; }
    }
  }

  lemma LinkedAt(best: seq<Block>, i: nat)
    requires Linked(best) && i < |best|
    ensures best[i].height == i
    ensures best[i].parentHash == TipHash(best[..i])
  {
    assert Extends(best[..i], best[i]);
  }

  lemma LinkedDistinct(best: seq<Block>, i: nat, j: nat)
    requires Linked(best) && i < |best| && j < |best| && i != j
    ensures Digest(best[i]) != Digest(best[j])
  {
    LinkedAt(best, i);
    LinkedAt(best, j);
  }

  lemma ExtensionIsNew(best: seq<Block>, b: Block)
    requires Linked(best) && Extends(best, b)
    ensures forall i :: 0 <= i < |best| ==> best[i] != b
  {
    forall i | 0 <= i < |best|
      ensures best[i] != b
    {
      LinkedAt(best, i);
    }
  }

  lemma AncestryStep(below: seq<Block>, b: Block)
    requires Extends(below, b) && Ancestry(TipHash(below)) == below
    ensures Ancestry(Digest(b)) == below + [b]
  {
  }

  /** A linked chain is the ancestry of its tip, so a tip hash determines the whole chain. */
  lemma {:induction false} LinkedIsAncestry(best: seq<Block>)
    requires Linked(best)
    ensures Ancestry(TipHash(best)) == best
    ensures TotalWork(TipHash(best)) == Work(best)
  {
    hide Ancestry, Work;
    if best == [] {
      NoAncestry();
    } else {
      var n := |best| - 1;
      LinkedPrefix(best, n);
      LinkedIsAncestry(best[..n]);
      AncestryStep(best[..n], best[n]);
      assert best == best[..n] + [best[n]];
    }
  }

  lemma NoAncestry()
    ensures Ancestry(ZERO_HASH) == []
  {
  }

  /** Two linked chains that end in the same block are equal. */
  lemma TipDeterminesChain(a: seq<Block>, b: seq<Block>)
    requires Linked(a) && Linked(b) && TipHash(a) == TipHash(b)
    ensures a == b
  {
    LinkedIsAncestry(a);
    LinkedIsAncestry(b);
  }

  lemma WorkPush(bs: seq<Block>, b: Block)
    ensures Work(bs + [b]) == Work(bs) + b.work
  {
    assert (bs + [b])[..|bs|] == bs;
  }

  lemma {:induction false} WorkOfPrefix(bs: seq<Block>, n: nat)
    requires n <= |bs|
    ensures Work(bs[..n]) <= Work(bs)
    decreases |bs|
  {
    if n < |bs| {
      WorkOfPrefix(bs[..|bs| - 1], n);
      assert bs[..|bs| - 1][..n] == bs[..n];
    } else {
      assert bs[..n] == bs;
    }
  }

  /** A block of a linked chain has no more total work than the chain's tip. */
  lemma WorkOnChain(best: seq<Block>, i: nat)
    requires Linked(best) && i < |best|
    ensures TotalWork(Digest(best[i])) <= Work(best)
  {
    hide Work, TotalWork, Linked;
    LinkedPrefix(best, i + 1);
    LinkedIsAncestry(best[..i + 1]);
    WorkOfPrefix(best, i + 1);
  }

  /** The recurrence by which the store computes a block's total difficulty. */
  lemma TotalWorkStep(b: Block)
    ensures TotalWork(Digest(b)) == b.work + (if b.height == 0 then 0 else TotalWork(b.parentHash))
  {
    var up := if b.height == 0 then [] else Ancestry(b.parentHash);
    WorkPush(up, b);
  }
}
