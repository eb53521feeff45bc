/** Picking the transactions of one parallel chain out of a block: its single transactions, and
    every whole group that holds at least one of them. */
module ParaFilters {
  import opened Blocks

  const PARA_KEY := "user.p."

  datatype TxDetail<R> = TxDetail(tx: Tx, receipt: R, index: int)

  predicate HasPrefix(s: string, prefix: string) {
    prefix <= s
  }

  /** The name starts, character by character, like the names of parallel chains and like the title. */
  ghost predicate Titled(title: string, exec: string) {
    && |PARA_KEY| <= |exec| && (forall i :: 0 <= i < |PARA_KEY| ==> exec[i] == PARA_KEY[i])
    && |title| <= |exec| && (forall i :: 0 <= i < |title| ==> exec[i] == title[i])
  }

  predicate IsSpecificParaExecName(title: string, exec: string)
    ensures IsSpecificParaExecName(title, exec) <==> Titled(title, exec)
  {
    HasPrefix(exec, PARA_KEY) && HasPrefix(exec, title)
  }

  /** Two titles share a name only if one is the start of the other. */
  lemma TitlesApart(t: string, u: string, exec: string)
    requires Titled(t, exec) && Titled(u, exec)
    ensures t <= u || u <= t
  {
    assert exec[..|t|] == t && exec[..|u|] == u;
    if |t| <= |u| { assert u[..|t|] == t; } else { assert t[..|u|] == u; }
  }

  /** So for titles of which neither is, no single transaction is selected for both. */
  lemma SelectedApart(txs: seq<Tx>, heads: seq<int>, t: string, u: string, i: nat)
    requires Heads(txs, heads) && i < |txs| && txs[i].groupCount < 2
    requires Selected(txs, heads, t, i) && Selected(txs, heads, u, i)
    ensures t <= u || u <= t
  {
    hide Titled;
    assert HeadAt(txs, heads, i);
    forall j | 0 <= j < |txs| && heads[j] == heads[i]
      ensures j == i
    {
      assert HeadAt(txs, heads, j);
    }
    TitlesApart(t, u, txs[i].execer);
  }

  /** `heads[i]` is the position of the first transaction of the group of `i`; a transaction
      outside a group is its own head.  The members of a group stand together, agree on its
      size and carry the hash of its first transaction. */
  ghost predicate Heads(txs: seq<Tx>, heads: seq<int>) {
    && |heads| == |txs|
    && (forall i :: 0 <= i < |txs| ==> HeadAt(txs, heads, i))
  }

  ghost predicate HeadAt(txs: seq<Tx>, heads: seq<int>, i: int)
    requires |heads| == |txs| && 0 <= i < |txs|
  {
    if txs[i].groupCount < 2 then heads[i] == i
    else
      && 0 <= heads[i] <= i < heads[i] + txs[i].groupCount <= |txs|
      && txs[i].header == txs[heads[i]].hash
      && (forall j :: heads[i] <= j < heads[i] + txs[i].groupCount ==>
            heads[j] == heads[i] && txs[j].groupCount == txs[i].groupCount)
  }

  ghost predicate WellFormed(txs: seq<Tx>) {
    exists heads :: Heads(txs, heads)
  }

  ghost predicate DistinctHashes(txs: seq<Tx>) {
    forall i, j :: 0 <= i < j < |txs| ==> txs[i].hash != txs[j].hash
  }

  /** With distinct hashes there is only one way to see the groups. */
  lemma HeadsUnique(txs: seq<Tx>, a: seq<int>, b: seq<int>)
    requires DistinctHashes(txs) && Heads(txs, a) && Heads(txs, b)
    ensures a == b
  {
    forall i | 0 <= i < |txs|
      ensures a[i] == b[i]
    {
      assert HeadAt(txs, a, i) && HeadAt(txs, b, i);
    }
  }

  /** Transaction `i` belongs to the title: it, or a member of its group, is executed there. */
  ghost predicate Selected(txs: seq<Tx>, heads: seq<int>, title: string, i: int)
    requires |heads| == |txs| && 0 <= i < |txs|
  {
    exists j :: 0 <= j < |txs| && heads[j] == heads[i] && Titled(title, txs[j].execer)
  }

  function Detail<R>(txs: seq<Tx>, receipts: seq<R>, i: int): TxDetail<R>
    requires |receipts| == |txs| && 0 <= i < |txs|
  {
    TxDetail(txs[i], receipts[i], i)
  }

  function Details<R>(txs: seq<Tx>, receipts: seq<R>, lo: int, hi: int): (ds: seq<TxDetail<R>>)
    requires |receipts| == |txs| && 0 <= lo <= hi <= |txs|
    ensures |ds| == hi - lo && forall k :: 0 <= k < |ds| ==> ds[k] == Detail(txs, receipts, lo + k)
  {
    seq(hi - lo, k requires 0 <= k < hi - lo => Detail(txs, receipts, lo + k))
  }

  /** The selected transactions among the first `n`, in order. */
  ghost function Wanted<R>(txs: seq<Tx>, receipts: seq<R>, heads: seq<int>, title: string, n: nat): seq<TxDetail<R>>
    requires |receipts| == |txs| == |heads| && n <= |txs|
  {
    if n == 0 then []
    else
      Wanted(txs, receipts, heads, title, n - 1) +
      (if Selected(txs, heads, title, n - 1) then [Detail(txs, receipts, n - 1)] else [])
  }

  /** Strictly increasing indexes, each with its own transaction and receipt, and exactly the
      selected ones. */
  lemma {:induction false} WantedExactly<R>(txs: seq<Tx>, receipts: seq<R>, heads: seq<int>, title: string, n: nat)
    requires |receipts| == |txs| == |heads| && n <= |txs|
    ensures var ds := Wanted(txs, receipts, heads, title, n);
            && (forall k :: 0 <= k < |ds| ==> 0 <= ds[k].index < n && ds[k] == Detail(txs, receipts, ds[k].index)
                                              && Selected(txs, heads, title, ds[k].index))
            && (forall k, l :: 0 <= k < l < |ds| ==> ds[k].index < ds[l].index)
            && (forall i :: 0 <= i < n && Selected(txs, heads, title, i) ==> Detail(txs, receipts, i) in ds)
  {
    hide Selected;
    if n > 0 { WantedExactly(txs, receipts, heads, title, n - 1); }
  }

  lemma {:induction false} WantedAll<R>(txs: seq<Tx>, receipts: seq<R>, heads: seq<int>, title: string, lo: nat,
                                        hi: nat)
    requires |receipts| == |txs| == |heads| && lo <= hi <= |txs|
    requires forall i :: lo <= i < hi ==> Selected(txs, heads, title, i)
    ensures Wanted(txs, receipts, heads, title, hi) ==
            Wanted(txs, receipts, heads, title, lo) + Details(txs, receipts, lo, hi)
  {
    hide Selected;
    if lo < hi {
      WantedAll(txs, receipts, heads, title, lo, hi - 1);
      assert Details(txs, receipts, lo, hi) == Details(txs, receipts, lo, hi - 1) + [Detail(txs, receipts, hi - 1)];
    }
  }

  lemma {:induction false} WantedNone<R>(txs: seq<Tx>, receipts: seq<R>, heads: seq<int>, title: string, lo: nat,
                                         hi: nat)
    requires |receipts| == |txs| == |heads| && lo <= hi <= |txs|
    requires forall i :: lo <= i < hi ==> !Selected(txs, heads, title, i)
    ensures Wanted(txs, receipts, heads, title, hi) == Wanted(txs, receipts, heads, title, lo)
  {
    hide Selected;
    if lo < hi { WantedNone(txs, receipts, heads, title, lo, hi - 1); }
  }

  /** Where the group (or single transaction) of `i` ends. */
  ghost function End(txs: seq<Tx>, heads: seq<int>, i: int): int
    requires |heads| == |txs| && 0 <= i < |txs|
  {
    if txs[i].groupCount < 2 then i + 1 else heads[i] + txs[i].groupCount
  }

  /** The whole group of `tx`, found by looking back for the transaction whose hash it carries. */
  method FilterParaTxGroup<R>(txs: seq<Tx>, receipts: seq<R>, tx: Tx, index: nat, ghost heads: seq<int>)
    returns (txDetails: seq<TxDetail<R>>, endIdx: int)
    requires |receipts| == |txs| && DistinctHashes(txs) && Heads(txs, heads)
    requires index < |txs| && tx == txs[index] && tx.groupCount >= 2
    ensures endIdx == heads[index] + tx.groupCount && index < endIdx <= |txs| && 0 <= heads[index] <= index
    ensures txDetails == Details(txs, receipts, heads[index], endIdx)
  {
    assert HeadAt(txs, heads, index);
    var headIdx := 0;
    var i: int := index;
    while i >= 0
      invariant heads[index] - 1 <= i <= index
      invariant i < heads[index] ==> headIdx == heads[index]
      invariant i >= heads[index] ==> forall k :: i < k <= index ==> txs[k].hash != tx.header
    {
      if tx.header == txs[i].hash {
        headIdx := i;
        break;
      }
      i := i - 1;
    }
    endIdx := headIdx + tx.groupCount;
    txDetails := [];
    i := headIdx;
    while i < endIdx
      invariant headIdx <= i <= endIdx && txDetails == Details(txs, receipts, headIdx, i)
    {
      txDetails := txDetails + [TxDetail(txs[i], receipts[i], i)];
      i := i + 1;
    }
  }

  /** The members of the group that starts at `s` are exactly the positions up to its end, and
      the next group starts there. */
  lemma Segment(txs: seq<Tx>, heads: seq<int>, s: nat)
    requires Heads(txs, heads) && s < |txs| && heads[s] == s
    ensures s < End(txs, heads, s) <= |txs|
    ensures forall j :: 0 <= j < |txs| ==> (heads[j] == s <==> s <= j < End(txs, heads, s))
    ensures End(txs, heads, s) < |txs| ==> heads[End(txs, heads, s)] == End(txs, heads, s)
  {
    assert HeadAt(txs, heads, s);
    forall j | 0 <= j < |txs|
      ensures heads[j] == s <==> s <= j < End(txs, heads, s)
    {
      assert HeadAt(txs, heads, j);
    }
    var e := End(txs, heads, s);
    if e < |txs| {
      assert HeadAt(txs, heads, e);
      assert heads[e - 1] == s;
    }
  }

  lemma OneSegment<R>(txs: seq<Tx>, receipts: seq<R>, heads: seq<int>, title: string, s: nat)
    requires |receipts| == |txs| && Heads(txs, heads) && s < |txs| && heads[s] == s
    ensures s < End(txs, heads, s) <= |txs|
    ensures (exists j :: s <= j < End(txs, heads, s) && IsSpecificParaExecName(title, txs[j].execer)) ==>
              Wanted(txs, receipts, heads, title, End(txs, heads, s))
              == Wanted(txs, receipts, heads, title, s) + Details(txs, receipts, s, End(txs, heads, s))
    ensures !(exists j :: s <= j < End(txs, heads, s) && IsSpecificParaExecName(title, txs[j].execer)) ==>
              Wanted(txs, receipts, heads, title, End(txs, heads, s)) == Wanted(txs, receipts, heads, title, s)
  {
    hide IsSpecificParaExecName, HeadAt, End;
    Segment(txs, heads, s);
    var e := End(txs, heads, s);
    if j :| s <= j < e && IsSpecificParaExecName(title, txs[j].execer) {
      forall i | s <= i < e
        ensures Selected(txs, heads, title, i)
      {
        assert heads[j] == heads[i];
      }
      WantedAll(txs, receipts, heads, title, s, e);
    } else {
      forall i | s <= i < e
        ensures !Selected(txs, heads, title, i)
      {
        assert heads[i] == s;
      }
      WantedNone(txs, receipts, heads, title, s, e);
    }
  }

  /** Scan the block; the first matching member of a group brings in the whole group, and the
      scan goes on behind it. */
  method FilterParaTxsByTitle<R>(txs: seq<Tx>, receipts: seq<R>, title: string) returns (ds: seq<TxDetail<R>>)
    requires |receipts| == |txs| && WellFormed(txs) && DistinctHashes(txs)
    ensures forall heads :: Heads(txs, heads) ==> ds == Wanted(txs, receipts, heads, title, |txs|)
  {
    hide IsSpecificParaExecName, HeadAt, End, Wanted, DistinctHashes;
    ghost var heads :| Heads(txs, heads);
    ghost var s := 0;
    ds := [];
    Start(txs, receipts, heads, title);
    var i := 0;
    while i < |txs|
      invariant |heads| == |txs| && 0 <= s <= i <= |txs| && (s < |txs| ==> heads[s] == s)
      invariant ds == Wanted(txs, receipts, heads, title, s)
      invariant s < i ==> i < End(txs, heads, s)
      invariant forall k :: s <= k < i ==> !IsSpecificParaExecName(title, txs[k].execer)
    {
      var tx := txs[i];
      Segment(txs, heads, s);
      SameSegment(txs, heads, s, i);
      OneSegment(txs, receipts, heads, title, s);
      ghost var e := End(txs, heads, s);
      if IsSpecificParaExecName(title, tx.execer) {
        if tx.groupCount >= 2 {
          var txDetails, endIdx := FilterParaTxGroup(txs, receipts, tx, i, heads);
          ds := ds + txDetails;
          i := endIdx - 1;
        } else {
          ds := ds + [TxDetail(tx, receipts[i], i)];
          assert Details(txs, receipts, i, i + 1) == [TxDetail(tx, receipts[i], i)];
        }
        s := e;
      } else if i + 1 == e {
        s := e;
      }
      i := i + 1;
    }
    if s < i { Segment(txs, heads, s); }
    forall other | Heads(txs, other)
      ensures ds == Wanted(txs, receipts, other, title, |txs|)
    {
      HeadsUnique(txs, heads, other);
    }
  }

  lemma Start<R>(txs: seq<Tx>, receipts: seq<R>, heads: seq<int>, title: string)
    requires |receipts| == |txs| && Heads(txs, heads)
    ensures Wanted(txs, receipts, heads, title, 0) == [] && |heads| == |txs| && (txs != [] ==> heads[0] == 0)
  {
    if txs != [] { assert HeadAt(txs, heads, 0); }
  }

  lemma SameSegment(txs: seq<Tx>, heads: seq<int>, s: nat, i: nat)
    requires Heads(txs, heads) && s < |txs| && heads[s] == s && s <= i < End(txs, heads, s)
    ensures i < |txs| && heads[i] == s && End(txs, heads, i) == End(txs, heads, s)
    ensures txs[i].groupCount < 2 ==> i == s && End(txs, heads, s) == i + 1
    ensures txs[i].groupCount >= 2 ==> End(txs, heads, s) == s + txs[i].groupCount
  {
    Segment(txs, heads, s);
    assert HeadAt(txs, heads, s) && HeadAt(txs, heads, i);
  }
}
