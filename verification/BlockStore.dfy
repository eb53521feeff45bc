/** The persistent part of the chain: the block table, the height/hash maps, total
    difficulties and the append-only sequence log.  A database batch is one atomic
    change of a `Db` value. */
module BlockStores {
  import opened Blocks

  /** One entry of the sequence log: the block was added to, or deleted from, the best chain. */
  datatype Entry = Entry(hash: Hash, add: bool)

  datatype Db = Db(
    record: bool,                    // configuration: whether the sequence log is kept
    table: map<Hash, Block>,
    lastHeight: int,                 // -1 while the key is absent
    heightToHash: map<int, Hash>,
    hashToHeight: map<Hash, int>,
    td: map<Hash, nat>,
    seqs: map<int, Entry>,
    hashToSeq: map<Hash, int>,
    lastSeq: int)                    // -1 while the key is absent

  function EmptyDb(record: bool): Db {
    Db(record, map[], -1, map[], map[], map[], map[], map[], -1)
  }

  // ----- The three batches -----

  /** The total difficulty written with a block; needs the parent's when the height is not 0. */
  function BlockTd(db: Db, b: Block): nat
    requires b.height == 0 || b.parentHash in db.td
  {
    if b.height == 0 then b.work else b.work + db.td[b.parentHash]
  }

  function WithSequence(db: Db, h: Hash, add: bool): Db {
    if !db.record then db
    else
      var n := db.lastSeq + 1;
      db.(seqs := db.seqs[n := Entry(h, add)],
          hashToSeq := if add then db.hashToSeq[h := n] else db.hashToSeq,
          lastSeq := n)
  }

  function StoreBatch(db: Db, b: Block): Db
    requires b.height == 0 || b.parentHash in db.td
  {
    db.(table := db.table[Digest(b) := b], td := db.td[Digest(b) := BlockTd(db, b)])
  }

  function ConnectBatch(db: Db, b: Block): Db
    requires b.height == 0 || b.parentHash in db.td
  {
    var h := Digest(b);
    WithSequence(db.(table := db.table[h := b],
                     lastHeight := b.height,
                     hashToHeight := db.hashToHeight[h := b.height],
                     heightToHash := db.heightToHash[b.height := h],
                     td := db.td[h := BlockTd(db, b)]),
                 h, true)
  }

  function DisconnectBatch(db: Db, b: Block): Db {
    var h := Digest(b);
    WithSequence(db.(lastHeight := b.height - 1,
                     hashToHeight := db.hashToHeight - {h},
                     heightToHash := db.heightToHash - {b.height}),
                 h, false)
  }

  // ----- What the database says about a best chain -----

  /** The two maps are inverse to each other and their domain is exactly heights 0..tip. */
  ghost predicate MapsAgree(db: Db, best: seq<Block>) {
    && db.lastHeight == |best| - 1
    && (forall h :: h in db.heightToHash <==> 0 <= h < |best|)
    && (forall h :: 0 <= h < |best| ==> db.heightToHash[h] == Digest(best[h]))
    && (forall x :: x in db.hashToHeight ==>
          db.hashToHeight[x] in db.heightToHash && db.heightToHash[db.hashToHeight[x]] == x)
    && (forall h :: h in db.heightToHash ==>
          db.heightToHash[h] in db.hashToHeight && db.hashToHeight[db.heightToHash[h]] == h)
  }

  /** Every stored total difficulty is the work of the block's whole ancestry, and the
      ancestry of a stored block is stored. */
  ghost predicate TdExact(db: Db) {
    forall x {:trigger TdExactAt(db.td, x)} :: x in db.td ==> TdExactAt(db.td, x)
  }

  ghost predicate TdExactAt(td: map<Hash, nat>, x: Hash)
    requires x in td
  {
    && x.Digest?
    && td[x] == TotalWork(x)
    && (x.block.height == 0 || x.block.parentHash in td)
  }

  ghost predicate TableExact(db: Db) {
    && db.table.Keys == db.td.Keys
    && (forall x :: x in db.table ==> Digest(db.table[x]) == x)
  }

  ghost predicate LogWellFormed(db: Db) {
    && -1 <= db.lastSeq
    && (forall n :: n in db.seqs <==> 0 <= n <= db.lastSeq)
  }

  function Log(db: Db): (log: seq<Entry>)
    requires LogWellFormed(db)
    ensures |log| == db.lastSeq + 1
  {
    seq(db.lastSeq + 1, n requires 0 <= n <= db.lastSeq => db.seqs[n])
  }

  /** What a reader of the log rebuilds: an add pushes, a delete must pop the same hash. */
  function Replay(log: seq<Entry>): Option<seq<Hash>> {
    if log == [] then Some([])
    else match Replay(log[..|log| - 1])
      case None => None
      case Some(s) =>
        var e := log[|log| - 1];
        if e.add then Some(s + [e.hash])
        else if s != [] && s[|s| - 1] == e.hash then Some(s[..|s| - 1])
        else None
  }

  /** The sequence recorded for `h` is its latest add, and no later entry mentions `h`. */
  ghost predicate LatestAdd(db: Db, h: Hash)
    requires LogWellFormed(db)
  {
    && h in db.hashToSeq
    && 0 <= db.hashToSeq[h] <= db.lastSeq
    && db.seqs[db.hashToSeq[h]] == Entry(h, true)
    && (forall n :: db.hashToSeq[h] < n <= db.lastSeq ==> db.seqs[n].hash != h)
  }

  ghost predicate LogAgrees(db: Db, best: seq<Block>) {
    && LogWellFormed(db)
    && Replay(Log(db)) == Some(Hashes(best))
    && (forall i :: 0 <= i < |best| ==> LatestAdd(db, Digest(best[i])))
  }

  ghost predicate DbInv(db: Db, best: seq<Block>) {
    && Linked(best)
    && MapsAgree(db, best)
    && TdExact(db)
    && TableExact(db)
    && (forall i :: 0 <= i < |best| ==> Digest(best[i]) in db.td)
    && (db.record ==> LogAgrees(db, best))
  }

  // ----- Runs -----

  /** A step changes the database by one batch: accept a block without connecting it, put a
      block on the best chain, or take the tip off. */
  datatype Step = Store(block: Block) | Connect(block: Block) | Disconnect

  datatype Chain = Chain(db: Db, best: seq<Block>)

  ghost predicate Enabled(c: Chain, step: Step) {
    match step
    case Store(b) => b.height == 0 || b.parentHash in c.db.td
    case Connect(b) => Extends(c.best, b) && (b.height == 0 || b.parentHash in c.db.td)
    case Disconnect => c.best != []
  }

  ghost function Apply(c: Chain, step: Step): Chain
    requires Enabled(c, step)
  {
    match step
    case Store(b) => Chain(StoreBatch(c.db, b), c.best)
    case Connect(b) => Chain(ConnectBatch(c.db, b), c.best + [b])
    case Disconnect =>
      var n := |c.best| - 1;
      Chain(DisconnectBatch(c.db, c.best[n]), c.best[..n])
  }

  /** The chain after `steps`, from an empty database, if every step was enabled. */
  ghost function Run(record: bool, steps: seq<Step>): Option<Chain> {
    if steps == [] then Some(Chain(EmptyDb(record), []))
    else match Run(record, steps[..|steps| - 1])
      case None => None
      case Some(c) =>
        if Enabled(c, steps[|steps| - 1]) then Some(Apply(c, steps[|steps| - 1])) else None
  }

  lemma RunPush(record: bool, steps: seq<Step>, step: Step)
    requires Run(record, steps).Some? && Enabled(Run(record, steps).value, step)
    ensures Run(record, steps + [step]) == Some(Apply(Run(record, steps).value, step))
  {
    assert (steps + [step])[..|steps|] == steps;
  }

  lemma RunPop(record: bool, steps: seq<Step>, step: Step)
    requires Run(record, steps + [step]).Some?
    ensures Run(record, steps).Some? && Enabled(Run(record, steps).value, step)
    ensures Run(record, steps + [step]) == Some(Apply(Run(record, steps).value, step))
    ensures forall h :: h in Run(record, steps + [step]).value.db.td ==>
              h in Run(record, steps).value.db.td || (!step.Disconnect? && h == Digest(step.block))
  {
    assert (steps + [step])[..|steps|] == steps;
  }

  // ----- The invariant holds after every step of every run -----

  lemma ReplayPush(log: seq<Entry>, e: Entry)
    requires Replay(log).Some?
    ensures e.add ==> Replay(log + [e]) == Some(Replay(log).value + [e.hash])
    ensures !e.add && Replay(log).value != [] && Replay(log).value[|Replay(log).value| - 1] == e.hash
            ==> Replay(log + [e]) == Some(Replay(log).value[..|Replay(log).value| - 1])
  {
    assert (log + [e])[..|log|] == log;
  }

  lemma LogPush(db: Db, h: Hash, add: bool)
    requires db.record && LogWellFormed(db)
    ensures LogWellFormed(WithSequence(db, h, add))
    ensures Log(WithSequence(db, h, add)) == Log(db) + [Entry(h, add)]
    ensures forall x :: x != h && LatestAdd(db, x) ==> LatestAdd(WithSequence(db, h, add), x)
    ensures add ==> LatestAdd(WithSequence(db, h, add), h)
  {
  }

  lemma {:induction false} LogConnect(db: Db, best: seq<Block>, b: Block)
    requires db.record && Linked(best) && LogAgrees(db, best) && Extends(best, b)
    ensures LogAgrees(WithSequence(db, Digest(b), true), best + [b])
  {
    var db' := WithSequence(db, Digest(b), true);
    LogPush(db, Digest(b), true);
    ReplayPush(Log(db), Entry(Digest(b), true));
    assert Hashes(best + [b]) == Hashes(best) + [Digest(b)];
    forall i | 0 <= i < |best| + 1
      ensures LatestAdd(db', Digest((best + [b])[i]))
    {
      if i < |best| { LinkedAt(best, i); }
    }
  }

  lemma LogDisconnect(db: Db, best: seq<Block>)
    requires db.record && Linked(best) && LogAgrees(db, best) && best != []
    ensures LogAgrees(WithSequence(db, TipHash(best), false), best[..|best| - 1])
  {
    var n := |best| - 1;
    var db' := WithSequence(db, TipHash(best), false);
    LogPush(db, TipHash(best), false);
    ReplayPush(Log(db), Entry(TipHash(best), false));
    assert Hashes(best[..n]) == Hashes(best)[..n];
    forall i | 0 <= i < n
      ensures LatestAdd(db', Digest(best[..n][i]))
    {
      LinkedDistinct(best, i, n);
    }
  }

  lemma {:induction false} TdComputed(db: Db, b: Block)
    requires TdExact(db) && (b.height == 0 || b.parentHash in db.td)
    ensures BlockTd(db, b) == TotalWork(Digest(b))
  {
    TotalWorkStep(b);
    if b.height != 0 { assert TdExactAt(db.td, b.parentHash); }
  }

  lemma {:induction false} TdStored(db: Db, b: Block)
    requires TdExact(db) && (b.height == 0 || b.parentHash in db.td)
    ensures TdExact(StoreBatch(db, b))
  {
    var td := StoreBatch(db, b).td;
    TdComputed(db, b);
    forall x | x in td
      ensures TdExactAt(td, x)
    {
      if x != Digest(b) { assert TdExactAt(db.td, x); }
    }
  }

  lemma TableStored(db: Db, b: Block)
    requires TableExact(db) && (b.height == 0 || b.parentHash in db.td)
    ensures TableExact(StoreBatch(db, b))
  {
    var db' := StoreBatch(db, b);
    assert db'.td.Keys == db.td.Keys + {Digest(b)};
    assert db'.table.Keys == db.table.Keys + {Digest(b)};
  }

  /** Adding one pair under a new height and a new hash keeps two maps inverse to each other. */
  lemma InversePush(up: map<int, Hash>, down: map<Hash, int>, h: int, x: Hash)
    requires h !in up && x !in down
    requires forall y :: y in down ==> down[y] in up && up[down[y]] == y
    requires forall n :: n in up ==> up[n] in down && down[up[n]] == n
    ensures var up', down' := up[h := x], down[x := h];
            && (forall y :: y in down' ==> down'[y] in up' && up'[down'[y]] == y)
            && (forall n :: n in up' ==> up'[n] in down' && down'[up'[n]] == n)
  {
  }

  lemma {:induction false} MapsConnect(db: Db, best: seq<Block>, b: Block)
    requires Linked(best) && MapsAgree(db, best) && Extends(best, b)
    requires b.height == 0 || b.parentHash in db.td
    ensures MapsAgree(ConnectBatch(db, b), best + [b])
  {
    hide Linked;
    ExtensionUnmapped(db, best, b);
    InversePush(db.heightToHash, db.hashToHeight, b.height, Digest(b));
  }

  lemma MapsDisconnect(db: Db, best: seq<Block>)
    requires Linked(best) && MapsAgree(db, best) && best != []
    ensures MapsAgree(DisconnectBatch(db, best[|best| - 1]), best[..|best| - 1])
  {
    hide Linked;
    var n := |best| - 1;
    LinkedAt(best, n);
    var db' := DisconnectBatch(db, best[n]);
    assert db.heightToHash[n] == Digest(best[n]) && db.hashToHeight[Digest(best[n])] == n;
    assert forall x :: x in db'.hashToHeight ==> db.hashToHeight[x] != n;
    assert forall h :: h in db'.heightToHash ==> db.heightToHash[h] != Digest(best[n]);
  }

  /** Only the three log keys matter to the log. */
  lemma SameLog(db: Db, db': Db, best: seq<Block>)
    requires LogAgrees(db, best)
    requires db'.seqs == db.seqs && db'.hashToSeq == db.hashToSeq && db'.lastSeq == db.lastSeq
    ensures LogAgrees(db', best)
  {
    assert Log(db') == Log(db);
    forall i | 0 <= i < |best|
      ensures LatestAdd(db', Digest(best[i]))
    {
      assert LatestAdd(db, Digest(best[i]));
    }
  }

  lemma {:induction false} StoreKeepsInv(db: Db, best: seq<Block>, b: Block)
    requires DbInv(db, best) && (b.height == 0 || b.parentHash in db.td)
    ensures DbInv(StoreBatch(db, b), best)
  {
    TdStored(db, b);
    TableStored(db, b);
    if db.record { SameLog(db, StoreBatch(db, b), best); }
  }

  lemma {:induction false} ConnectKeepsInv(db: Db, best: seq<Block>, b: Block)
    requires DbInv(db, best) && Extends(best, b) && (b.height == 0 || b.parentHash in db.td)
    ensures DbInv(ConnectBatch(db, b), best + [b])
  {
    var db' := ConnectBatch(db, b);
    TdStored(db, b);
    TableStored(db, b);
    assert db'.td == StoreBatch(db, b).td && db'.table == StoreBatch(db, b).table;
    MapsConnect(db, best, b);
    LinkedPush(best, b);
    if db.record {
      var base := db'.(seqs := db.seqs, hashToSeq := db.hashToSeq, lastSeq := db.lastSeq);
      SameLog(db, base, best);
      LogConnect(base, best, b);
    }
  }

  lemma {:induction false} DisconnectKeepsInv(db: Db, best: seq<Block>)
    requires DbInv(db, best) && best != []
    ensures DbInv(DisconnectBatch(db, best[|best| - 1]), best[..|best| - 1])
  {
    hide Replay, Log, LatestAdd, Extends, TdExactAt, Hashes;
    var db' := DisconnectBatch(db, best[|best| - 1]);
    MapsDisconnect(db, best);
    LinkedPrefix(best, |best| - 1);
    if db.record {
      var base := db'.(seqs := db.seqs, hashToSeq := db.hashToSeq, lastSeq := db.lastSeq);
      SameLog(db, base, best);
      LogDisconnect(base, best);
    }
  }

  /** Disconnecting takes back everything a connect did to the chain; only the log keeps a trace
      of both, and the block stays stored. */
  lemma DisconnectUndoesConnect(db: Db, best: seq<Block>, b: Block)
    requires DbInv(db, best) && Extends(best, b) && (b.height == 0 || b.parentHash in db.td)
    ensures var db' := DisconnectBatch(ConnectBatch(db, b), b);
            && db'.heightToHash == db.heightToHash && db'.hashToHeight == db.hashToHeight
            && db'.lastHeight == db.lastHeight
            && db'.table == db.table[Digest(b) := b]
            && (db.record ==>
                  && LogWellFormed(db')
                  && Log(db') == Log(db) + [Entry(Digest(b), true), Entry(Digest(b), false)])
  {
    hide LogAgrees, LatestAdd, Replay, TdExact, TableExact, Linked, Log, LogWellFormed;
    assert db.lastHeight == b.height - 1;
    ExtensionUnmapped(db, best, b);
    hide MapsAgree;
    PutThenRemove(db.heightToHash, b.height, Digest(b));
    PutThenRemove(db.hashToHeight, Digest(b), b.height);
    if db.record { TwoEntries(db, best, b); }
  }

  lemma PutThenRemove<K, V>(m: map<K, V>, k: K, v: V)
    requires k !in m
    ensures m[k := v] - {k} == m
  {
  }

  lemma ExtensionUnmapped(db: Db, best: seq<Block>, b: Block)
    requires Linked(best) && MapsAgree(db, best) && Extends(best, b)
    ensures b.height !in db.heightToHash && Digest(b) !in db.hashToHeight
  {
    if Digest(b) in db.hashToHeight {
      var h := db.hashToHeight[Digest(b)];
      LinkedAt(best, h);
    }
  }

  lemma TwoEntries(db: Db, best: seq<Block>, b: Block)
    requires db.record && LogAgrees(db, best) && (b.height == 0 || b.parentHash in db.td)
    ensures var db' := DisconnectBatch(ConnectBatch(db, b), b);
            LogWellFormed(db') && Log(db') == Log(db) + [Entry(Digest(b), true), Entry(Digest(b), false)]
  {
    hide LatestAdd, Replay;
    var db1 := WithSequence(db, Digest(b), true);
    LogPush(db, Digest(b), true);
    LogPush(db1, Digest(b), false);
    var db' := DisconnectBatch(ConnectBatch(db, b), b);
    assert Log(db') == Log(WithSequence(db1, Digest(b), false));
  }

  lemma {:induction false} StepKeepsInv(c: Chain, step: Step)
    requires DbInv(c.db, c.best) && Enabled(c, step)
    ensures DbInv(Apply(c, step).db, Apply(c, step).best)
  {
    hide DbInv, StoreBatch, ConnectBatch, DisconnectBatch;
    match step
    case Store(b) => StoreKeepsInv(c.db, c.best, b);
    case Connect(b) => ConnectKeepsInv(c.db, c.best, b);
    case Disconnect => DisconnectKeepsInv(c.db, c.best);
  }

  /** After every run of accepts, connects and disconnects: the maps are inverse with domain
      0..tip, every total difficulty is exact, and replaying the log rebuilds the best chain. */
  lemma {:induction false} EveryRunKeepsInv(record: bool, steps: seq<Step>)
    requires Run(record, steps).Some?
    ensures Run(record, steps).value.db.record == record
    ensures DbInv(Run(record, steps).value.db, Run(record, steps).value.best)
  {
    if steps == [] {
      assert Log(EmptyDb(record)) == [];
      assert Hashes([]) == [];
    } else {
      var n := |steps| - 1;
      EveryRunKeepsInv(record, steps[..n]);
      StepKeepsInv(Run(record, steps[..n]).value, steps[n]);
    }
  }

  /** Because a prefix of a run is a run, no intermediate state of a reorganisation is exempt. */
  lemma {:induction false} EveryIntermediateStateKeepsInv(record: bool, steps: seq<Step>, n: nat)
    requires Run(record, steps).Some? && n <= |steps|
    ensures Run(record, steps[..n]).Some?
    ensures DbInv(Run(record, steps[..n]).value.db, Run(record, steps[..n]).value.best)
    decreases |steps|
  {
    if n == |steps| {
      assert steps[..n] == steps;
      EveryRunKeepsInv(record, steps);
    } else {
      EveryIntermediateStateKeepsInv(record, steps[..|steps| - 1], n);
      assert steps[..|steps| - 1][..n] == steps[..n];
    }
  }

  // ----- The store object -----

  /** `db` is what is on disk; `height` and `lastBlock` are kept in memory.  A method that fills
      a batch takes and returns the database as it will be once the batch is written. */
  class BlockStore {
    const saveSequence: bool
    var db: Db
    var height: int
    var lastBlock: Option<Block>

    constructor (record: bool)
      ensures saveSequence == record && db == EmptyDb(record) && height == -1 && lastBlock == None
    {
      saveSequence, db, height, lastBlock := record, EmptyDb(record), -1, None;
    }

    /** Recording must have started at the genesis block: otherwise the node stops. */
    method SaveBlockSequence(batch: Db, hash: Hash, height: int, add: bool) returns (batch': Db, newSequence: int)
      requires batch.record == db.record && batch.lastSeq == db.lastSeq
      requires db.record && db.lastSeq == -1 ==> height == 0
      ensures batch' == WithSequence(batch, hash, add)
      ensures newSequence == if db.record then batch'.lastSeq else 0
    {
      batch', newSequence := batch, 0;
      if db.record {
        newSequence := db.lastSeq + 1;
        assert !(newSequence == 0 && height != 0);
        batch' := batch'.(seqs := batch'.seqs[newSequence := Entry(hash, add)]);
        if add {
          batch' := batch'.(hashToSeq := batch'.hashToSeq[hash := newSequence]);
        }
        batch' := batch'.(lastSeq := newSequence);
      }
    }

    method SaveBlock(batch: Db, block: Block) returns (batch': Db, lastSequence: int)
      requires batch == db && (db.record && db.lastSeq == -1 ==> block.height == 0)
      requires block.height == 0 || block.parentHash in db.td
      ensures batch'.(td := batch'.td[Digest(block) := BlockTd(db, block)]) == ConnectBatch(db, block)
      ensures batch'.td == db.td
      ensures lastSequence == if db.record then db.lastSeq + 1 else -1
    {
      lastSequence := -1;
      var hash := Digest(block);
      batch' := batch.(table := batch.table[hash := block]);
      batch' := batch'.(lastHeight := block.height);
      batch' := batch'.(hashToHeight := batch'.hashToHeight[hash := block.height]);
      batch' := batch'.(heightToHash := batch'.heightToHash[block.height := hash]);
      if db.record {
        batch', lastSequence := SaveBlockSequence(batch', hash, block.height, true);
      }
    }

    /** The sequence number of the delete entry is assigned to a shadowing variable, so -1 is returned. */
    method DelBlock(batch: Db, block: Block) returns (batch': Db, lastSequence: int)
      requires batch == db && (db.record && db.lastSeq == -1 ==> block.height == 0)
      ensures batch' == DisconnectBatch(db, block) && lastSequence == -1
    {
      lastSequence := -1;
      var hash := Digest(block);
      batch' := batch.(lastHeight := block.height - 1);
      batch' := batch'.(hashToHeight := batch'.hashToHeight - {hash});
      batch' := batch'.(heightToHash := batch'.heightToHash - {block.height});
      if db.record {
        var newSequence;
        batch', newSequence := SaveBlockSequence(batch', hash, block.height, false);
      }
    }

    /** Store a block that may never join the best chain; its parent's total difficulty must be known. */
    method MaybeStoreBlock(block: Block) returns (ok: bool)
      modifies `db
      ensures ok == (block.height == 0 || block.parentHash in old(db).td)
      ensures db == if ok then StoreBatch(old(db), block) else old(db)
    {
      var batch := db.(table := db.table[Digest(block) := block]);
      var td := block.work;
      if block.height != 0 {
        if block.parentHash !in db.td {
          return false;
        }
        td := td + db.td[block.parentHash];
      }
      batch := batch.(td := batch.td[Digest(block) := td]);
      db := batch;
      return true;
    }

    method UpdateLastBlock(hash: Hash)
      modifies `lastBlock
      ensures lastBlock == if hash in db.table then Some(db.table[hash]) else old(lastBlock)
    {
      if hash in db.table {
        lastBlock := Some(db.table[hash]);
      }
    }
  }
}
