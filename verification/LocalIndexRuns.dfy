/** The derived indexes follow the best chain through every run of connects and disconnects. */
module LocalIndexRuns {
  import opened Blocks
  import S = BlockStores
  import opened LocalIndexes

  // ----- Entries: transactions by hash and by address -----

  predicate IsEntry(k: Key) {
    k.TxKey? || k.ShortKey? || k.DirKey? || k.AddrKey?
  }

  /** Transaction `p` of `b` is recorded under `k`. */
  predicate Has(cfg: Config, b: Block, k: Key, p: int) {
    && 0 <= p < |b.txs|
    && match k
       case TxKey(hash) => b.txs[p].hash == hash
       case ShortKey(prefix) => cfg.quickIndex && Short(b.txs[p].hash) == prefix
       case DirKey(addr, flag, hi) =>
         cfg.addrIndex && addr != "" && hi == HeightIndex(b, p)
         && ((flag == TX_INDEX_FROM && b.txs[p].from == addr) || (flag == TX_INDEX_TO && b.txs[p].to == addr))
       case AddrKey(addr, hi) =>
         cfg.addrIndex && addr != "" && hi == HeightIndex(b, p) && (b.txs[p].from == addr || b.txs[p].to == addr)
       case _ => false
  }

  /** What is recorded there. */
  function EntryOf(b: Block, k: Key, p: int): Value
    requires 0 <= p < |b.txs|
  {
    match k
    case TxKey(_) => TxResult(b.height, p, b.txs[p])
    case ShortKey(_) => Mark
    case _ => TxInfo(b.txs[p].hash, b.height, p)
  }

  ghost predicate Mentions(cfg: Config, b: Block, k: Key, n: int) {
    exists p :: 0 <= p < n && Has(cfg, b, k, p)
  }

  ghost predicate Once(cfg: Config, b: Block, k: Key) {
    forall p, q :: Has(cfg, b, k, p) && Has(cfg, b, k, q) ==> p == q
  }

  /** `e` is the effect of the first `n` transactions of `b` at `k`. */
  ghost predicate EffectAt(cfg: Config, b: Block, n: int, add: bool, k: Key, e: Effect) {
    && (k in e <==> Mentions(cfg, b, k, n))
    && (k in e && !add ==> e[k] == None)
    && (forall p :: k in e && add && LastBelow(cfg, b, k, n, p) ==> e[k] == Some(EntryOf(b, k, p)))
  }

  /** The last of the first `n` transactions that is recorded under `k`. */
  ghost predicate LastBelow(cfg: Config, b: Block, k: Key, n: int, p: int) {
    0 <= p < n && Has(cfg, b, k, p) && forall q :: p < q < n ==> !Has(cfg, b, k, q)
  }

  /** `e'` records transaction `n` under `k` if it belongs there, and is `e` otherwise. */
  ghost predicate Records(cfg: Config, b: Block, n: int, add: bool, k: Key, e: Effect, e': Effect)
    requires 0 <= n < |b.txs|
  {
    if Has(cfg, b, k, n) then k in e' && e'[k] == Write(add, EntryOf(b, k, n))
    else (k in e' <==> k in e) && (k in e ==> e'[k] == e[k])
  }

  lemma EffectStep(cfg: Config, b: Block, n: nat, add: bool, k: Key, e: Effect, e': Effect)
    requires n < |b.txs| && EffectAt(cfg, b, n, add, k, e) && Records(cfg, b, n, add, k, e, e')
    ensures EffectAt(cfg, b, n + 1, add, k, e')
  {
    hide Has;
    assert Mentions(cfg, b, k, n + 1) <==> Mentions(cfg, b, k, n) || Has(cfg, b, k, n);
    forall p | k in e' && add && LastBelow(cfg, b, k, n + 1, p)
      ensures e'[k] == Some(EntryOf(b, k, p))
    {
      if Has(cfg, b, k, n) { assert p == n; } else { assert p < n && LastBelow(cfg, b, k, n, p); }
    }
  }

  lemma {:induction false} TxEffectAt(cfg: Config, b: Block, n: nat, add: bool, k: Key)
    requires n <= |b.txs| && (k.TxKey? || k.ShortKey?)
    ensures EffectAt(cfg, b, n, add, k, TxEffect(cfg, b, n, add))
  {
    if n > 0 {
      var e, e' := TxEffect(cfg, b, n - 1, add), TxEffect(cfg, b, n, add);
      TxEffectAt(cfg, b, n - 1, add, k);
      assert Records(cfg, b, n - 1, add, k, e, e');
      EffectStep(cfg, b, n - 1, add, k, e, e');
    }
  }

  lemma TouchAt(cfg: Config, db: Db, b: Block, n: nat, add: bool, k: Key, e: Effect)
    requires n < |b.txs| && (k.DirKey? || k.AddrKey?) && cfg.addrIndex
    ensures Records(cfg, b, n, add, k, e,
                    Touch(cfg, db, Touch(cfg, db, e, b, n, b.txs[n].from, TX_INDEX_FROM, add), b, n, b.txs[n].to,
                          TX_INDEX_TO, add))
  {
    hide CountIn, Peek;
  }

  lemma {:induction false} AddrEffectAt(cfg: Config, db: Db, b: Block, n: nat, add: bool, k: Key)
    requires n <= |b.txs| && (k.DirKey? || k.AddrKey?) && cfg.addrIndex
    ensures EffectAt(cfg, b, n, add, k, AddrEffect(cfg, db, b, n, add))
  {
    hide Touch, Has;
    if n > 0 {
      var e := AddrEffect(cfg, db, b, n - 1, add);
      AddrEffectAt(cfg, db, b, n - 1, add, k);
      TouchAt(cfg, db, b, n - 1, add, k, e);
      EffectStep(cfg, b, n - 1, add, k, e, AddrEffect(cfg, db, b, n, add));
    }
  }

  lemma BlockEffectAt(cfg: Config, db: Db, b: Block, add: bool, k: Key)
    requires IsEntry(k)
    ensures EffectAt(cfg, b, |b.txs|, add, k, BlockEffect(cfg, db, b, add))
  {
    hide EffectAt, BlockEffect, TxEffect, AddrEffect, Has;
    var p := Owner(k).value;
    PartOfBlock(cfg, db, b, p, add, k);
    if p == TxIndex {
      TxEffectAt(cfg, b, |b.txs|, add, k);
      SameAt(cfg, b, add, k, PluginEffect(cfg, db, b, p, add), BlockEffect(cfg, db, b, add));
    } else if cfg.addrIndex {
      AddrEffectAt(cfg, db, b, |b.txs|, add, k);
      SameAt(cfg, b, add, k, PluginEffect(cfg, db, b, p, add), BlockEffect(cfg, db, b, add));
    } else {
      NothingAt(cfg, b, add, k, BlockEffect(cfg, db, b, add));
    }
  }

  lemma SameAt(cfg: Config, b: Block, add: bool, k: Key, e: Effect, f: Effect)
    requires EffectAt(cfg, b, |b.txs|, add, k, e) && (k in e <==> k in f) && (k in e ==> e[k] == f[k])
    ensures EffectAt(cfg, b, |b.txs|, add, k, f)
  {
  }

  lemma NothingAt(cfg: Config, b: Block, add: bool, k: Key, e: Effect)
    requires !cfg.addrIndex && (k.DirKey? || k.AddrKey?) && k !in e
    ensures EffectAt(cfg, b, |b.txs|, add, k, e)
  {
  }

  /** No two transactions of the chain are recorded under `k`. */
  ghost predicate UniqueAt(cfg: Config, best: seq<Block>, k: Key) {
    forall i, j, p, q :: 0 <= i < |best| && 0 <= j < |best| && Has(cfg, best[i], k, p) && Has(cfg, best[j], k, q)
                         ==> i == j && p == q
  }

  /** The database holds `k` exactly if the chain records a transaction there, and then with
      that transaction's place. */
  ghost predicate EntryExact(cfg: Config, db: Db, best: seq<Block>, k: Key) {
    && (k in db <==> exists i, p :: 0 <= i < |best| && Has(cfg, best[i], k, p))
    && (forall i, p :: 0 <= i < |best| && Has(cfg, best[i], k, p) ==> Slot(db, k) == Some(EntryOf(best[i], k, p)))
  }

  lemma EntryConnect(cfg: Config, db: Db, best: seq<Block>, b: Block, db': Db, k: Key)
    requires IsEntry(k) && EntryExact(cfg, db, best, k) && UniqueAt(cfg, best + [b], k)
    requires Written(db, BlockEffect(cfg, db, b, true), db')
    ensures EntryExact(cfg, db', best + [b], k)
  {
    hide Has, BlockEffect;
    BlockEffectAt(cfg, db, b, true, k);
    var best' := best + [b];
    assert best'[|best|] == b;
    assert forall i :: 0 <= i < |best| ==> best'[i] == best[i];
    assert Slot(db', k) == Peek(db, BlockEffect(cfg, db, b, true), k);
    InRange(cfg, b, k);
    assert Once(cfg, b, k) by { assert forall p :: Has(cfg, b, k, p) <==> Has(cfg, best'[|best|], k, p); }
    if Mentions(cfg, b, k, |b.txs|) {
      var p :| 0 <= p < |b.txs| && Has(cfg, b, k, p);
      assert Has(cfg, best'[|best|], k, p);
      assert LastBelow(cfg, b, k, |b.txs|, p);
    }
  }

  lemma EntryDisconnect(cfg: Config, db: Db, best: seq<Block>, db': Db, k: Key)
    requires IsEntry(k) && best != [] && EntryExact(cfg, db, best, k) && UniqueAt(cfg, best, k)
    requires Written(db, BlockEffect(cfg, db, best[|best| - 1], false), db')
    ensures EntryExact(cfg, db', best[..|best| - 1], k)
  {
    hide Has, BlockEffect;
    var n := |best| - 1;
    var b := best[n];
    BlockEffectAt(cfg, db, b, false, k);
    assert Slot(db', k) == Peek(db, BlockEffect(cfg, db, b, false), k);
    InRange(cfg, b, k);
    assert forall i :: 0 <= i < n ==> best[..n][i] == best[i];
  }

  /** Disconnecting a block restores what was under `k` before the block was connected exactly
      if the block did not overwrite an entry that was already there. */
  lemma UndoRestoresExactly(cfg: Config, db: Db, b: Block, db1: Db, db2: Db, k: Key)
    requires IsEntry(k)
    requires Written(db, BlockEffect(cfg, db, b, true), db1) && Written(db1, BlockEffect(cfg, db1, b, false), db2)
    ensures Slot(db2, k) == Slot(db, k) <==> !(k in db && exists p :: Has(cfg, b, k, p))
  {
    hide Has, BlockEffect;
    BlockEffectAt(cfg, db, b, true, k);
    BlockEffectAt(cfg, db1, b, false, k);
    assert Slot(db1, k) == Peek(db, BlockEffect(cfg, db, b, true), k);
    assert Slot(db2, k) == Peek(db1, BlockEffect(cfg, db1, b, false), k);
    InRange(cfg, b, k);
  }

  lemma InRange(cfg: Config, b: Block, k: Key)
    ensures (exists p :: Has(cfg, b, k, p)) <==> Mentions(cfg, b, k, |b.txs|)
  {
  }

  // ----- Address counts -----

  /** How often `a` is the sender or the receiver in the first `n` transactions. */
  function Appears(b: Block, n: nat, a: string): nat
    requires n <= |b.txs|
  {
    if n == 0 then 0
    else Appears(b, n - 1, a) + (if b.txs[n - 1].from == a then 1 else 0) + (if b.txs[n - 1].to == a then 1 else 0)
  }

  function Appearances(best: seq<Block>, a: string): nat {
    if best == [] then 0
    else var b := best[|best| - 1]; Appearances(best[..|best| - 1], a) + Appears(b, |b.txs|, a)
  }

  function Signed(add: bool, n: int): int {
    if add then n else -n
  }

  predicate Counting(cfg: Config) {
    cfg.addrIndex && cfg.dbVersion != 0
  }

  lemma {:induction false} AddrEffectCounts(cfg: Config, db: Db, b: Block, n: nat, add: bool, a: string)
    requires n <= |b.txs|
    ensures cfg.dbVersion == 0 || a == "" ==> CountKey(a) !in AddrEffect(cfg, db, b, n, add)
    ensures cfg.dbVersion != 0 && a != "" ==>
              CountIn(Peek(db, AddrEffect(cfg, db, b, n, add), CountKey(a)))
              == CountIn(Slot(db, CountKey(a))) + Signed(add, Appears(b, n, a))
  {
    hide Touch;
    if n > 0 {
      AddrEffectCounts(cfg, db, b, n - 1, add, a);
      var e := AddrEffect(cfg, db, b, n - 1, add);
      var e1 := Touch(cfg, db, e, b, n - 1, b.txs[n - 1].from, TX_INDEX_FROM, add);
      TouchCounts(cfg, db, b, n - 1, add, a, e, b.txs[n - 1].from, TX_INDEX_FROM);
      TouchCounts(cfg, db, b, n - 1, add, a, e1, b.txs[n - 1].to, TX_INDEX_TO);
    }
  }

  lemma TouchCounts(cfg: Config, db: Db, b: Block, p: nat, add: bool, a: string, e: Effect, addr: string, flag: int)
    requires p < |b.txs|
    ensures cfg.dbVersion == 0 || a != addr || a == "" ==>
              var e' := Touch(cfg, db, e, b, p, addr, flag, add);
              (CountKey(a) in e' <==> CountKey(a) in e) && Peek(db, e', CountKey(a)) == Peek(db, e, CountKey(a))
    ensures cfg.dbVersion != 0 && a == addr && a != "" ==>
              CountIn(Peek(db, Touch(cfg, db, e, b, p, addr, flag, add), CountKey(a)))
              == CountIn(Peek(db, e, CountKey(a))) + Signed(add, 1)
  {
  }

  lemma BlockCounts(cfg: Config, db: Db, b: Block, add: bool, a: string)
    ensures !Counting(cfg) || a == "" ==> CountKey(a) !in BlockEffect(cfg, db, b, add)
    ensures Counting(cfg) && a != "" ==>
              CountIn(Peek(db, BlockEffect(cfg, db, b, add), CountKey(a)))
              == CountIn(Slot(db, CountKey(a))) + Signed(add, Appears(b, |b.txs|, a))
  {
    hide BlockEffect, AddrEffect, TxEffect, Appears;
    AddrEffectCounts(cfg, db, b, |b.txs|, add, a);
    PartOfBlock(cfg, db, b, AddrIndex, add, CountKey(a));
  }

  /** The stored count of an address is its number of appearances on the chain. */
  ghost predicate CountExact(cfg: Config, db: Db, best: seq<Block>, a: string) {
    if Counting(cfg) && a != "" then CountIn(Slot(db, CountKey(a))) == Appearances(best, a)
    else CountKey(a) !in db
  }

  lemma CountConnect(cfg: Config, db: Db, best: seq<Block>, b: Block, db': Db, a: string)
    requires CountExact(cfg, db, best, a) && Written(db, BlockEffect(cfg, db, b, true), db')
    ensures CountExact(cfg, db', best + [b], a)
  {
    hide BlockEffect, Appears;
    BlockCounts(cfg, db, b, true, a);
    assert Slot(db', CountKey(a)) == Peek(db, BlockEffect(cfg, db, b, true), CountKey(a));
    assert (best + [b])[..|best|] == best;
  }

  lemma CountDisconnect(cfg: Config, db: Db, best: seq<Block>, db': Db, a: string)
    requires best != [] && CountExact(cfg, db, best, a)
    requires Written(db, BlockEffect(cfg, db, best[|best| - 1], false), db')
    ensures CountExact(cfg, db', best[..|best| - 1], a)
  {
    hide BlockEffect, Appears;
    BlockCounts(cfg, db, best[|best| - 1], false, a);
    assert Slot(db', CountKey(a)) == Peek(db, BlockEffect(cfg, db, best[|best| - 1], false), CountKey(a));
  }

  // ----- Fee totals -----

  /** All transactions of a chain, in order. */
  function AllTxs(best: seq<Block>): seq<Tx> {
    if best == [] then [] else AllTxs(best[..|best| - 1]) + best[|best| - 1].txs
  }

  /** The total of a chain: the fees and the number of all its transactions. */
  function TotalOf(best: seq<Block>): Value {
    TotalFee(FeesOf(AllTxs(best)), |AllTxs(best)|)
  }

  /** Every block of the chain, and no other, has a total: that of the chain up to it. */
  ghost predicate FeesExact(db: Db, best: seq<Block>) {
    && (forall i :: 0 <= i < |best| ==> FeeExactAt(db, best, i))
    && (forall x :: FeeKey(x) in db ==> OnChain(best, x))
  }

  ghost predicate FeeExactAt(db: Db, best: seq<Block>, i: nat)
    requires i < |best|
  {
    Slot(db, FeeKey(Digest(best[i]))) == Some(TotalOf(best[..i + 1]))
  }

  ghost predicate OnChain(best: seq<Block>, x: Hash) {
    exists i :: 0 <= i < |best| && x == Digest(best[i])
  }

  lemma OnChainPush(best: seq<Block>, b: Block, x: Hash)
    ensures OnChain(best + [b], x) <==> OnChain(best, x) || x == Digest(b)
  {
    var best' := best + [b];
    if OnChain(best, x) {
      var i :| 0 <= i < |best| && x == Digest(best[i]);
      assert x == Digest(best'[i]);
    } else if x == Digest(b) {
      assert x == Digest(best'[|best|]);
    }
  }

  lemma FeeAt(cfg: Config, db: Db, b: Block, add: bool, db': Db, x: Hash)
    requires Written(db, BlockEffect(cfg, db, b, add), db')
    ensures Slot(db', FeeKey(x)) == Peek(db, FeeEffect(db, b, add), FeeKey(x))
  {
    hide BlockEffect, FeeEffect;
    PartOfBlock(cfg, db, b, FeeIndex, add, FeeKey(x));
  }

  lemma ParentTotal(db: Db, best: seq<Block>)
    requires Linked(best) && FeesExact(db, best)
    ensures FeeIn(Slot(db, FeeKey(TipHash(best)))) == TotalOf(best)
  {
    if best == [] {
      assert FeeKey(ZERO_HASH) !in db;
    } else {
      assert FeeExactAt(db, best, |best| - 1);
      assert best[..|best| - 1 + 1] == best;
    }
  }

  lemma FeeConnect(cfg: Config, db: Db, best: seq<Block>, b: Block, db': Db)
    requires Linked(best) && Extends(best, b) && FeesExact(db, best)
    requires Written(db, BlockEffect(cfg, db, b, true), db')
    ensures FeesExact(db', best + [b])
  {
    hide BlockEffect, TotalOf, Written, FeeEffect, OnChain;
    var best' := best + [b];
    ExtensionIsNew(best, b);
    FeeAtTip(cfg, db, best, b, db');
    forall i | 0 <= i < |best'|
      ensures FeeExactAt(db', best', i)
    {
      if i < |best| {
        assert FeeExactAt(db, best, i);
        FeeElsewhere(cfg, db, b, true, db', Digest(best[i]));
        assert best'[..i + 1] == best[..i + 1];
      } else {
        assert best'[..i + 1] == best';
      }
    }
    forall x | FeeKey(x) in db'
      ensures OnChain(best', x)
    {
      OnChainPush(best, b, x);
      if x != Digest(b) { FeeElsewhere(cfg, db, b, true, db', x); }
    }
  }

  lemma FeeElsewhere(cfg: Config, db: Db, b: Block, add: bool, db': Db, x: Hash)
    requires Written(db, BlockEffect(cfg, db, b, add), db') && x != Digest(b)
    ensures Slot(db', FeeKey(x)) == Slot(db, FeeKey(x))
  {
    hide BlockEffect;
    FeeAt(cfg, db, b, add, db', x);
  }

  lemma FeeAtTip(cfg: Config, db: Db, best: seq<Block>, b: Block, db': Db)
    requires Linked(best) && Extends(best, b) && FeesExact(db, best)
    requires Written(db, BlockEffect(cfg, db, b, true), db')
    ensures Slot(db', FeeKey(Digest(b))) == Some(TotalOf(best + [b]))
  {
    hide BlockEffect, AllTxs, FeesOf, FeesExact;
    ParentTotal(db, best);
    TotalPush(best, b);
    FeeAt(cfg, db, b, true, db', Digest(b));
  }

  lemma TotalPush(best: seq<Block>, b: Block)
    ensures TotalOf(best + [b]) == TotalFee(TotalOf(best).fee + FeesOf(b.txs), TotalOf(best).txCount + |b.txs|)
  {
    hide FeesOf;
    assert (best + [b])[..|best|] == best;
    FeesJoin(AllTxs(best), b.txs);
  }

  lemma FeeDisconnect(cfg: Config, db: Db, best: seq<Block>, db': Db)
    requires Linked(best) && best != [] && FeesExact(db, best)
    requires Written(db, BlockEffect(cfg, db, best[|best| - 1], false), db')
    ensures FeesExact(db', best[..|best| - 1])
  {
    hide BlockEffect, TotalOf, Written, FeeEffect, OnChain;
    var n := |best| - 1;
    forall i | 0 <= i < n
      ensures FeeExactAt(db', best[..n], i)
    {
      LinkedDistinct(best, i, n);
      assert FeeExactAt(db, best, i);
      FeeElsewhere(cfg, db, best[n], false, db', Digest(best[i]));
      assert best[..n][..i + 1] == best[..i + 1];
    }
    forall x | FeeKey(x) in db'
      ensures OnChain(best[..n], x)
    {
      FeeGone(cfg, db, best[n], db');
      FeeElsewhere(cfg, db, best[n], false, db', x);
      assert best == best[..n] + [best[n]];
      OnChainPush(best[..n], best[n], x);
    }
  }

  lemma FeeGone(cfg: Config, db: Db, b: Block, db': Db)
    requires Written(db, BlockEffect(cfg, db, b, false), db')
    ensures FeeKey(Digest(b)) !in db'
  {
    hide BlockEffect;
    FeeAt(cfg, db, b, false, db', Digest(b));
  }

  // ----- Runs -----

  /** The best chain after the first `n` steps. */
  ghost function BestAfter(record: bool, steps: seq<S.Step>, n: nat): seq<Block>
    requires n <= |steps|
  {
    match S.Run(record, steps[..n])
    case Some(c) => c.best
    case None => []
  }

  /** The index database before and after one step of the chain. */
  ghost predicate IndexStep(cfg: Config, best: seq<Block>, step: S.Step, db: Db, db': Db) {
    match step
    case Store(_) => db' == db
    case Connect(b) => Written(db, BlockEffect(cfg, db, b, true), db')
    case Disconnect => best != [] && Written(db, BlockEffect(cfg, db, best[|best| - 1], false), db')
  }

  /** `dbs[n]` is the index database after `n` steps of a run, starting empty. */
  ghost predicate Trace(cfg: Config, record: bool, steps: seq<S.Step>, dbs: seq<Db>) {
    && S.Run(record, steps).Some?
    && |dbs| == |steps| + 1
    && dbs[0] == map[]
    && (forall n :: 0 <= n < |steps| ==> IndexStep(cfg, BestAfter(record, steps, n), steps[n], dbs[n], dbs[n + 1]))
  }

  lemma ChainStep(record: bool, steps: seq<S.Step>, n: nat)
    requires S.Run(record, steps).Some? && n < |steps|
    ensures Linked(BestAfter(record, steps, n))
    ensures var best, best' := BestAfter(record, steps, n), BestAfter(record, steps, n + 1);
            match steps[n]
            case Store(_) => best' == best
            case Connect(b) => Extends(best, b) && best' == best + [b]
            case Disconnect => best != [] && best' == best[..|best| - 1]
  {
    hide S.MapsAgree, S.LogAgrees, S.TdExact, S.TableExact, Linked, S.Run, S.StoreBatch, S.ConnectBatch,
         S.DisconnectBatch;
    S.EveryIntermediateStateKeepsInv(record, steps, n);
    S.EveryIntermediateStateKeepsInv(record, steps, n + 1);
    assert steps[..n + 1] == steps[..n] + [steps[n]];
    S.RunPop(record, steps[..n], steps[n]);
  }

  /** Through any run in which no chain records two transactions under `k`, the database holds
      at `k` exactly what the best chain records there. */
  lemma {:induction false} EntriesFollowChain(cfg: Config, record: bool, steps: seq<S.Step>, dbs: seq<Db>, n: nat,
                                              k: Key)
    requires Trace(cfg, record, steps, dbs) && n <= |steps| && IsEntry(k)
    requires forall m :: 0 <= m <= n ==> UniqueAt(cfg, BestAfter(record, steps, m), k)
    ensures EntryExact(cfg, dbs[n], BestAfter(record, steps, n), k)
  {
    hide Has, BlockEffect, Written, EntryExact, UniqueAt, BestAfter;
    if n == 0 {
      NoEntries(cfg, record, steps, k);
    } else {
      EntriesFollowChain(cfg, record, steps, dbs, n - 1, k);
      ChainStep(record, steps, n - 1);
      var best, db := BestAfter(record, steps, n - 1), dbs[n - 1];
      assert IndexStep(cfg, best, steps[n - 1], db, dbs[n - 1 + 1]);
      match steps[n - 1] {
        case Store(_) =>
        case Connect(b) => EntryConnect(cfg, db, best, b, dbs[n], k);
        case Disconnect => EntryDisconnect(cfg, db, best, dbs[n], k);
      }
    }
  }

  lemma NoEntries(cfg: Config, record: bool, steps: seq<S.Step>, k: Key)
    ensures EntryExact(cfg, map[], BestAfter(record, steps, 0), k)
  {
  }

  /** Through any run, every address count is the number of appearances on the best chain, and
      every block of the best chain, and no other, has its fee total. */
  lemma {:induction false} CountsAndFeesFollowChain(cfg: Config, record: bool, steps: seq<S.Step>, dbs: seq<Db>, n: nat,
                                                    a: string)
    requires Trace(cfg, record, steps, dbs) && n <= |steps|
    ensures CountExact(cfg, dbs[n], BestAfter(record, steps, n), a)
    ensures FeesExact(dbs[n], BestAfter(record, steps, n))
  {
    hide BlockEffect, Written, CountExact, FeesExact, BestAfter;
    if n == 0 {
      NoCounts(cfg, record, steps, a);
    } else {
      CountsAndFeesFollowChain(cfg, record, steps, dbs, n - 1, a);
      ChainStep(record, steps, n - 1);
      var best, db := BestAfter(record, steps, n - 1), dbs[n - 1];
      assert IndexStep(cfg, best, steps[n - 1], db, dbs[n - 1 + 1]);
      match steps[n - 1] {
        case Store(_) =>
        case Connect(b) =>
          CountConnect(cfg, db, best, b, dbs[n], a);
          FeeConnect(cfg, db, best, b, dbs[n]);
        case Disconnect =>
          CountDisconnect(cfg, db, best, dbs[n], a);
          FeeDisconnect(cfg, db, best, dbs[n]);
      }
    }
  }

  lemma NoCounts(cfg: Config, record: bool, steps: seq<S.Step>, a: string)
    ensures CountExact(cfg, map[], BestAfter(record, steps, 0), a)
    ensures FeesExact(map[], BestAfter(record, steps, 0))
  {
  }

  // ----- The two kinds of entries -----

  /** No two transactions of the chain have this hash. */
  ghost predicate OncePerChain(best: seq<Block>, hash: string) {
    forall i, j, p, q ::
      (0 <= i < |best| && 0 <= j < |best| && 0 <= p < |best[i].txs| && 0 <= q < |best[j].txs|
       && best[i].txs[p].hash == hash && best[j].txs[q].hash == hash) ==> i == j && p == q
  }

  /** A transaction is found by its hash exactly if it is on the best chain, with its height and
      its place in the block, through any run in which no chain repeats the hash. */
  lemma TxsFollowChain(cfg: Config, record: bool, steps: seq<S.Step>, dbs: seq<Db>, hash: string)
    requires Trace(cfg, record, steps, dbs)
    requires forall m :: 0 <= m <= |steps| ==> OncePerChain(BestAfter(record, steps, m), hash)
    ensures var best, db := BestAfter(record, steps, |steps|), dbs[|steps|];
            && (TxKey(hash) in db <==>
                exists i, p :: 0 <= i < |best| && 0 <= p < |best[i].txs| && best[i].txs[p].hash == hash)
            && (forall i, p :: 0 <= i < |best| && 0 <= p < |best[i].txs| && best[i].txs[p].hash == hash ==>
                  Slot(db, TxKey(hash)) == Some(TxResult(i, p, best[i].txs[p])))
  {
    hide BestAfter;
    var k := TxKey(hash);
    forall m | 0 <= m <= |steps|
      ensures UniqueAt(cfg, BestAfter(record, steps, m), k)
    {
    }
    EntriesFollowChain(cfg, record, steps, dbs, |steps|, k);
    HeightsAt(record, steps);
    HasTx(cfg, BestAfter(record, steps, |steps|), hash);
  }

  lemma HeightsAt(record: bool, steps: seq<S.Step>)
    requires S.Run(record, steps).Some?
    ensures var best := BestAfter(record, steps, |steps|); forall i :: 0 <= i < |best| ==> best[i].height == i
  {
    S.EveryIntermediateStateKeepsInv(record, steps, |steps|);
    var best := BestAfter(record, steps, |steps|);
    forall i | 0 <= i < |best|
      ensures best[i].height == i
    {
      LinkedAt(best, i);
    }
  }

  lemma HasTx(cfg: Config, best: seq<Block>, hash: string)
    ensures forall i, p :: 0 <= i < |best| ==>
              (Has(cfg, best[i], TxKey(hash), p) <==> 0 <= p < |best[i].txs| && best[i].txs[p].hash == hash)
  {
  }

  /** Blocks are small enough for the numbers that stand for height and place: a block may have more
      transactions than the spacing only if no block near enough above it has any. */
  ghost predicate Spaced(best: seq<Block>) {
    forall i, j :: 0 <= i < j < |best| && best[j].txs != [] ==> |best[i].txs| <= (j - i) * MAX_TXS_PER_BLOCK
  }

  ghost predicate PlacesDistinct(best: seq<Block>) {
    forall i, j, p, q ::
      (0 <= i < |best| && 0 <= j < |best| && 0 <= p < |best[i].txs| && 0 <= q < |best[j].txs|
       && HeightIndex(best[i], p) == HeightIndex(best[j], q)) ==> i == j && p == q
  }

  /** That is exactly when no two transactions of a chain have the same number. */
  lemma SpacedExactly(best: seq<Block>)
    requires Linked(best)
    ensures Spaced(best) <==> PlacesDistinct(best)
  {
    forall i | 0 <= i < |best|
      ensures best[i].height == i
    {
      LinkedAt(best, i);
    }
    if !Spaced(best) {
      var i, j :| 0 <= i < j < |best| && best[j].txs != [] && |best[i].txs| > (j - i) * MAX_TXS_PER_BLOCK;
      assert HeightIndex(best[i], (j - i) * MAX_TXS_PER_BLOCK) == HeightIndex(best[j], 0);
    }
  }

  /** The address index needs no assumption on hashes, only that the chains are spaced. */
  lemma AddrsFollowChain(cfg: Config, record: bool, steps: seq<S.Step>, dbs: seq<Db>, n: nat, k: Key)
    requires Trace(cfg, record, steps, dbs) && n <= |steps| && (k.AddrKey? || k.DirKey?)
    requires forall m :: 0 <= m <= n ==> Spaced(BestAfter(record, steps, m))
    ensures EntryExact(cfg, dbs[n], BestAfter(record, steps, n), k)
  {
    hide EntryExact, Spaced;
    forall m | 0 <= m <= n
      ensures UniqueAt(cfg, BestAfter(record, steps, m), k)
    {
      S.EveryIntermediateStateKeepsInv(record, steps, m);
      SpacedExactly(BestAfter(record, steps, m));
      SpacedUnique(cfg, BestAfter(record, steps, m), k);
    }
    EntriesFollowChain(cfg, record, steps, dbs, n, k);
  }

  lemma SpacedUnique(cfg: Config, best: seq<Block>, k: Key)
    requires PlacesDistinct(best) && (k.AddrKey? || k.DirKey?)
    ensures UniqueAt(cfg, best, k)
  {
    forall i, j, p, q | 0 <= i < |best| && 0 <= j < |best| && Has(cfg, best[i], k, p) && Has(cfg, best[j], k, q)
      ensures i == j && p == q
    {
      assert HeightIndex(best[i], p) == HeightIndex(best[j], q);
    }
  }
}
