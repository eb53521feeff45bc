/** The indexes derived from the best chain: transactions by hash, transactions by address,
    the number of transactions of an address and the running fee total.  They are written when
    a block is connected and taken back when it is disconnected.

    Keys are constructors instead of prefixed byte strings, so keys of different tables differ. */
module LocalIndexes {
  import opened Blocks

  const MAX_TXS_PER_BLOCK := 100000
  const TX_INDEX_FROM := 1
  const TX_INDEX_TO := 2

  datatype Config = Config(quickIndex: bool, addrIndex: bool, dbVersion: int)

  datatype Key =
    | TxKey(hash: string)
    | ShortKey(prefix: string)
    | DirKey(addr: string, flag: int, heightIndex: int)
    | AddrKey(addr: string, heightIndex: int)
    | CountKey(addr: string)
    | FeeKey(block: Hash)
    | Other(name: string)                       // keys of contracts and of other plugins

  datatype Value =
    | TxResult(height: int, index: int, tx: Tx)
    | Mark
    | TxInfo(hash: string, height: int, index: int)
    | Count(n: int)
    | TotalFee(fee: int, txCount: int)
    | Bytes(bytes: string)

  /** A pair to write; `None` deletes the key. */
  datatype KV = KV(key: Key, value: Option<Value>)

  type Db = map<Key, Value>
  type Effect = map<Key, Option<Value>>

  datatype Plugin = TxIndex | AddrIndex | FeeIndex

  function Owner(k: Key): Option<Plugin> {
    match k
    case TxKey(_) => Some(TxIndex)
    case ShortKey(_) => Some(TxIndex)
    case DirKey(_, _, _) => Some(AddrIndex)
    case AddrKey(_, _) => Some(AddrIndex)
    case CountKey(_) => Some(AddrIndex)
    case FeeKey(_) => Some(FeeIndex)
    case Other(_) => None
  }

  function Slot(db: Db, k: Key): Option<Value> {
    if k in db then Some(db[k]) else None
  }

  /** What `db` holds at `k` once the effect `e` is written over it. */
  function Peek(db: Db, e: Effect, k: Key): Option<Value> {
    if k in e then e[k] else Slot(db, k)
  }

  /** The effect of writing pairs in order: for each key the last pair counts. */
  function Latest(kvs: seq<KV>): Effect {
    if kvs == [] then map[]
    else Latest(kvs[..|kvs| - 1])[kvs[|kvs| - 1].key := kvs[|kvs| - 1].value]
  }

  lemma LatestPush(kvs: seq<KV>, kv: KV)
    ensures Latest(kvs + [kv]) == Latest(kvs)[kv.key := kv.value]
  {
    assert (kvs + [kv])[..|kvs|] == kvs;
  }

  lemma {:induction false} LatestJoin(a: seq<KV>, b: seq<KV>)
    ensures Latest(a + b) == Latest(a) + Latest(b)
  {
    if b == [] {
      assert a + b == a;
    } else {
      var n := |b| - 1;
      LatestJoin(a, b[..n]);
      LatestPush(a + b[..n], b[n]);
      assert a + b == (a + b[..n]) + [b[n]];
    }
  }

  lemma {:induction false} LatestKeys(kvs: seq<KV>)
    requires forall i :: 0 <= i < |kvs| ==> kvs[i].key.Other?
    ensures forall k :: k in Latest(kvs) ==> k.Other?
  {
    if kvs != [] { LatestKeys(kvs[..|kvs| - 1]); }
  }

  // ----- What each plugin writes for a block -----

  /** The first eight characters of a hash. */
  function Short(hash: string): (r: string)
    ensures r <= hash && |r| == if |hash| < 8 then |hash| else 8
  {
    if |hash| >= 8 then hash[..8] else hash
  }

  function Write(add: bool, v: Value): Option<Value> {
    if add then Some(v) else None
  }

  /** The transaction index for the first `n` transactions. */
  function TxEffect(cfg: Config, b: Block, n: nat, add: bool): Effect
    requires n <= |b.txs|
  {
    if n == 0 then map[]
    else
      var tx := b.txs[n - 1];
      var e := TxEffect(cfg, b, n - 1, add)[TxKey(tx.hash) := Write(add, TxResult(b.height, n - 1, tx))];
      if cfg.quickIndex then e[ShortKey(Short(tx.hash)) := Write(add, Mark)] else e
  }

  function CountIn(v: Option<Value>): int {
    match v
    case Some(Count(n)) => n
    case _ => 0
  }

  function HeightIndex(b: Block, p: int): int {
    b.height * MAX_TXS_PER_BLOCK + p
  }

  /** Below the limit of transactions in a block, the numbers sort by height and then by place. */
  lemma PlaceOrder(b: Block, p: int, c: Block, q: int)
    requires 0 <= p < MAX_TXS_PER_BLOCK && 0 <= q < MAX_TXS_PER_BLOCK
    ensures HeightIndex(b, p) < HeightIndex(c, q) <==> b.height < c.height || (b.height == c.height && p < q)
  {
  }

  const DIGITS := "0123456789"

  /** The last `width` decimal digits of `n`. */
  function Padded(n: nat, width: nat): (text: string)
    ensures |text| == width
  {
    if width == 0 then "" else Padded(n / 10, width - 1) + [DIGITS[n % 10]]
  }

  function Power(width: nat): (r: nat)
    ensures 1 <= r
  {
    if width == 0 then 1 else 10 * Power(width - 1)
  }

  /** `s` comes before `t` in a database that sorts by bytes. */
  predicate Before(s: string, t: string) {
    t != "" && (s == "" || s[0] < t[0] || (s[0] == t[0] && Before(s[1..], t[1..])))
  }

  lemma {:induction false} BeforePush(s: string, t: string, x: char, y: char)
    requires |s| == |t|
    ensures Before(s + [x], t + [y]) <==> Before(s, t) || (s == t && x < y)
    decreases |s|
  {
    if s == "" {
      assert s + [x] == [x] && t + [y] == [y];
    } else {
      BeforePush(s[1..], t[1..], x, y);
      assert (s + [x])[1..] == s[1..] + [x] && (t + [y])[1..] == t[1..] + [y];
      assert s == [s[0]] + s[1..] && t == [t[0]] + t[1..];
    }
  }

  /** Padded numbers sort as numbers, and different numbers have different texts. */
  lemma {:induction false} PaddedOrder(m: nat, n: nat, width: nat)
    requires m < Power(width) && n < Power(width)
    ensures Before(Padded(m, width), Padded(n, width)) <==> m < n
    ensures Padded(m, width) == Padded(n, width) <==> m == n
    decreases width
  {
    hide Before;
    if width == 0 {
      NotBefore();
    } else {
      PaddedOrder(m / 10, n / 10, width - 1);
      BeforePush(Padded(m / 10, width - 1), Padded(n / 10, width - 1), DIGITS[m % 10], DIGITS[n % 10]);
      DigitOrder(m % 10, n % 10);
      PushEqual(Padded(m / 10, width - 1), Padded(n / 10, width - 1), DIGITS[m % 10], DIGITS[n % 10]);
    }
  }

  const PLACE_WIDTH := 18

  /** So the entries of an address sort by height and then by place. */
  lemma EntriesSort(b: Block, p: int, c: Block, q: int)
    requires 0 <= p < MAX_TXS_PER_BLOCK && 0 <= q < MAX_TXS_PER_BLOCK && 0 <= b.height && 0 <= c.height
    requires HeightIndex(b, p) < Power(PLACE_WIDTH) && HeightIndex(c, q) < Power(PLACE_WIDTH)
    ensures Before(Padded(HeightIndex(b, p), PLACE_WIDTH), Padded(HeightIndex(c, q), PLACE_WIDTH)) <==>
            b.height < c.height || (b.height == c.height && p < q)
  {
    hide Before, Padded, Power;
    PlaceOrder(b, p, c, q);
    PaddedOrder(HeightIndex(b, p), HeightIndex(c, q), PLACE_WIDTH);
  }

  lemma NotBefore()
    ensures !Before("", "")
  {
  }

  lemma DigitOrder(i: nat, j: nat)
    requires i < 10 && j < 10
    ensures DIGITS[i] < DIGITS[j] <==> i < j
    ensures DIGITS[i] == DIGITS[j] <==> i == j
  {
    assert DIGITS == ['0', '1', '2', '3', '4', '5', '6', '7', '8', '9'];
  }

  lemma PushEqual(s: string, t: string, x: char, y: char)
    requires |s| == |t|
    ensures s + [x] == t + [y] <==> s == t && x == y
  {
    assert (s + [x])[..|s|] == s && (t + [y])[..|t|] == t;
  }

  /** Record one appearance of `addr` in transaction `p`. */
  function Touch(cfg: Config, db: Db, e: Effect, b: Block, p: nat, addr: string, flag: int, add: bool): Effect
    requires p < |b.txs|
  {
    if addr == "" then e
    else
      var v := Write(add, TxInfo(b.txs[p].hash, b.height, p));
      var e1 := e[DirKey(addr, flag, HeightIndex(b, p)) := v][AddrKey(addr, HeightIndex(b, p)) := v];
      if cfg.dbVersion == 0 then e1
      else e1[CountKey(addr) := Some(Count(CountIn(Peek(db, e, CountKey(addr))) + (if add then 1 else -1)))]
  }

  function AddrEffect(cfg: Config, db: Db, b: Block, n: nat, add: bool): Effect
    requires n <= |b.txs|
  {
    if n == 0 then map[]
    else
      var e := Touch(cfg, db, AddrEffect(cfg, db, b, n - 1, add), b, n - 1, b.txs[n - 1].from, TX_INDEX_FROM, add);
      Touch(cfg, db, e, b, n - 1, b.txs[n - 1].to, TX_INDEX_TO, add)
  }

  function FeesOf(txs: seq<Tx>): int {
    if txs == [] then 0 else FeesOf(txs[..|txs| - 1]) + txs[|txs| - 1].fee
  }

  /** Appending a transaction raises the fees by exactly its fee. */
  lemma FeesPush(txs: seq<Tx>, tx: Tx)
    ensures FeesOf([]) == 0 && FeesOf(txs + [tx]) == FeesOf(txs) + tx.fee
  {
    assert (txs + [tx])[..|txs|] == txs;
  }

  lemma {:induction false} FeesJoin(a: seq<Tx>, b: seq<Tx>)
    ensures FeesOf(a + b) == FeesOf(a) + FeesOf(b)
    decreases |b|
  {
    hide FeesOf;
    if b == [] {
      FeesPush([], NO_TX);
      assert a + b == a;
    } else {
      var n := |b| - 1;
      FeesJoin(a, b[..n]);
      FeesPush(a + b[..n], b[n]);
      FeesPush(b[..n], b[n]);
      assert a + b == a + b[..n] + [b[n]] && b == b[..n] + [b[n]];
    }
  }

  const NO_TX := Tx("", "", "", 0, "", 0, "")

  function FeeIn(v: Option<Value>): (t: Value)
    ensures t.TotalFee?
  {
    match v
    case Some(TotalFee(f, c)) => TotalFee(f, c)
    case _ => TotalFee(0, 0)
  }

  function FeeEffect(db: Db, b: Block, add: bool): Effect {
    var t := FeeIn(Slot(db, FeeKey(b.parentHash)));
    map[FeeKey(Digest(b)) := Write(add, TotalFee(t.fee + FeesOf(b.txs), t.txCount + |b.txs|))]
  }

  function PluginEffect(cfg: Config, db: Db, b: Block, p: Plugin, add: bool): Effect {
    match p
    case TxIndex => TxEffect(cfg, b, |b.txs|, add)
    case AddrIndex => if cfg.addrIndex then AddrEffect(cfg, db, b, |b.txs|, add) else map[]
    case FeeIndex => FeeEffect(db, b, add)
  }

  function BlockEffect(cfg: Config, db: Db, b: Block, add: bool): Effect {
    PluginEffect(cfg, db, b, TxIndex, add) + PluginEffect(cfg, db, b, AddrIndex, add)
    + PluginEffect(cfg, db, b, FeeIndex, add)
  }

  lemma {:induction false} TxEffectKeys(cfg: Config, b: Block, n: nat, add: bool)
    requires n <= |b.txs|
    ensures forall k :: k in TxEffect(cfg, b, n, add) ==> Owner(k) == Some(TxIndex)
  {
    if n > 0 { TxEffectKeys(cfg, b, n - 1, add); }
  }

  lemma {:induction false} AddrEffectKeys(cfg: Config, db: Db, b: Block, n: nat, add: bool)
    requires n <= |b.txs|
    ensures forall k :: k in AddrEffect(cfg, db, b, n, add) ==> Owner(k) == Some(AddrIndex)
  {
    if n > 0 { AddrEffectKeys(cfg, db, b, n - 1, add); }
  }

  lemma PluginKeys(cfg: Config, db: Db, b: Block, p: Plugin, add: bool)
    ensures forall k :: k in PluginEffect(cfg, db, b, p, add) ==> Owner(k) == Some(p)
  {
    hide TxEffect, AddrEffect;
    TxEffectKeys(cfg, b, |b.txs|, add);
    AddrEffectKeys(cfg, db, b, |b.txs|, add);
  }

  /** Each plugin's effect is the part of the block's effect that it owns. */
  lemma PartOfBlock(cfg: Config, db: Db, b: Block, p: Plugin, add: bool, k: Key)
    ensures k in PluginEffect(cfg, db, b, p, add) <==> k in BlockEffect(cfg, db, b, add) && Owner(k) == Some(p)
    ensures k in PluginEffect(cfg, db, b, p, add) ==>
              PluginEffect(cfg, db, b, p, add)[k] == BlockEffect(cfg, db, b, add)[k]
  {
    hide PluginEffect;
    PluginKeys(cfg, db, b, TxIndex, add);
    PluginKeys(cfg, db, b, AddrIndex, add);
    PluginKeys(cfg, db, b, FeeIndex, add);
  }

  /** `done` of the plugins have contributed to `e`, each the effect it owns. */
  ghost predicate Partial(cfg: Config, db: Db, b: Block, add: bool, done: seq<Plugin>, e: Effect) {
    forall k :: (k in e <==> k in BlockEffect(cfg, db, b, add) && Owner(k).Some? && Owner(k).value in done)
                && (k in e ==> e[k] == BlockEffect(cfg, db, b, add)[k])
  }

  lemma PartialPush(cfg: Config, db: Db, b: Block, add: bool, done: seq<Plugin>, e: Effect, p: Plugin)
    requires Partial(cfg, db, b, add, done, e)
    ensures Partial(cfg, db, b, add, done + [p], e + PluginEffect(cfg, db, b, p, add))
  {
    hide PluginEffect, BlockEffect;
    forall k {
      PartOfBlock(cfg, db, b, p, add, k);
    }
  }

  /** Two effects agree on every key of the plugins. */
  ghost predicate SameEffect(e: Effect, f: Effect) {
    forall k: Key :: !k.Other? ==> (k in e <==> k in f) && (k in e ==> e[k] == f[k])
  }

  /** They agree on every other key. */
  ghost predicate SameOthers(e: Effect, f: Effect) {
    forall k: Key :: k.Other? ==> (k in e <==> k in f) && (k in e ==> e[k] == f[k])
  }

  lemma PartialAll(cfg: Config, db: Db, b: Block, add: bool, done: seq<Plugin>, e: Effect, others: Effect)
    requires Partial(cfg, db, b, add, done, e) && (forall p: Plugin :: p in done)
    requires forall k :: k in others ==> k.Other?
    ensures SameEffect(e + others, BlockEffect(cfg, db, b, add)) && SameOthers(e + others, others)
  {
    hide BlockEffect;
  }

  lemma {:induction false} LatestHas(kvs: seq<KV>, j: nat)
    requires j < |kvs|
    ensures kvs[j].key in Latest(kvs)
  {
    if j < |kvs| - 1 { LatestHas(kvs[..|kvs| - 1], j); }
  }

  /** The address index reads nothing but the counts. */
  lemma {:induction false} AddrEffectReads(cfg: Config, db: Db, db': Db, b: Block, n: nat, add: bool)
    requires n <= |b.txs| && (forall k: Key :: k.CountKey? ==> Slot(db, k) == Slot(db', k))
    ensures AddrEffect(cfg, db, b, n, add) == AddrEffect(cfg, db', b, n, add)
  {
    hide Touch;
    if n > 0 {
      AddrEffectReads(cfg, db, db', b, n - 1, add);
      var e := AddrEffect(cfg, db, b, n - 1, add);
      var tx := b.txs[n - 1];
      TouchReads(cfg, db, db', e, b, n - 1, tx.from, TX_INDEX_FROM, add);
      TouchReads(cfg, db, db', Touch(cfg, db, e, b, n - 1, tx.from, TX_INDEX_FROM, add), b, n - 1, tx.to, TX_INDEX_TO,
                 add);
    }
  }

  lemma TouchReads(cfg: Config, db: Db, db': Db, e: Effect, b: Block, p: nat, addr: string, flag: int, add: bool)
    requires p < |b.txs| && Slot(db, CountKey(addr)) == Slot(db', CountKey(addr))
    ensures Touch(cfg, db, e, b, p, addr, flag, add) == Touch(cfg, db', e, b, p, addr, flag, add)
  {
  }

  class Executor {
    const cfg: Config
    const height: int
    var localDB: Db

    constructor (cfg: Config, height: int, db: Db)
      ensures this.cfg == cfg && this.height == height && localDB == db
    {
      this.cfg, this.height, localDB := cfg, height, db;
    }

    function GetTx(tx: Tx, index: nat): seq<KV> {
      [KV(TxKey(tx.hash), Some(TxResult(height, index, tx)))] +
      (if cfg.quickIndex then [KV(ShortKey(Short(tx.hash)), Some(Mark))] else [])
    }

    lemma GetTxEffect(b: Block, i: nat, add: bool, kvs: seq<KV>, kv: seq<KV>)
      requires height == b.height && i < |b.txs|
      requires Latest(kvs) == TxEffect(cfg, b, i, add)
      requires |kv| == |GetTx(b.txs[i], i)|
      requires forall k :: 0 <= k < |kv| ==>
                 kv[k] == KV(GetTx(b.txs[i], i)[k].key, if add then GetTx(b.txs[i], i)[k].value else None)
      ensures Latest(kvs + kv) == TxEffect(cfg, b, i + 1, add)
    {
      LatestPush(kvs, kv[0]);
      if cfg.quickIndex {
        LatestPush(kvs + [kv[0]], kv[1]);
        assert kvs + kv == kvs + [kv[0]] + [kv[1]];
      } else {
        assert kv == [kv[0]];
      }
    }

    method TxExecLocal(b: Block) returns (kvs: seq<KV>)
      requires height == b.height
      ensures Latest(kvs) == TxEffect(cfg, b, |b.txs|, true)
    {
      kvs := [];
      for i := 0 to |b.txs|
        invariant Latest(kvs) == TxEffect(cfg, b, i, true)
      {
        var kv := GetTx(b.txs[i], i);
        GetTxEffect(b, i, true, kvs, kv);
        kvs := kvs + kv;
      }
    }

    method TxExecDelLocal(b: Block) returns (kvs: seq<KV>)
      requires height == b.height
      ensures Latest(kvs) == TxEffect(cfg, b, |b.txs|, false)
    {
      kvs := [];
      for i := 0 to |b.txs|
        invariant Latest(kvs) == TxEffect(cfg, b, i, false)
      {
        var kvdel := GetTx(b.txs[i], i);
        for k := 0 to |kvdel|
          invariant |kvdel| == |GetTx(b.txs[i], i)|
          invariant forall j :: 0 <= j < |kvdel| ==> kvdel[j].key == GetTx(b.txs[i], i)[j].key
          invariant forall j :: 0 <= j < k ==> kvdel[j].value == None
        {
          kvdel := kvdel[k := kvdel[k].(value := None)];
        }
        GetTxEffect(b, i, false, kvs, kvdel);
        kvs := kvs + kvdel;
      }
    }

    /** Add to or take from the running count of `addr` in the local database. */
    method UpdateAddrTxsCount(addr: string, amount: int, isadd: bool) returns (kv: Option<KV>)
      modifies `localDB
      ensures cfg.dbVersion == 0 ==> kv == None && localDB == old(localDB)
      ensures cfg.dbVersion != 0 ==>
                var n := CountIn(Slot(old(localDB), CountKey(addr))) + (if isadd then amount else -amount);
                localDB == old(localDB)[CountKey(addr) := Count(n)] && kv == Some(KV(CountKey(addr), Some(Count(n))))
    {
      if cfg.dbVersion == 0 {
        return None;
      }
      var txscount := CountIn(Slot(localDB, CountKey(addr)));
      if isadd {
        txscount := txscount + amount;
      } else {
        txscount := txscount - amount;
      }
      localDB := localDB[CountKey(addr) := Count(txscount)];
      return Some(KV(CountKey(addr), Some(Count(txscount))));
    }

    /** The local database carries the counts of `e`; everything else is as in `db`. */
    static ghost predicate Carries(local: Db, db: Db, e: Effect) {
      forall k :: Slot(local, k) == if k.CountKey? then Peek(db, e, k) else Slot(db, k)
    }

    /** So it does after an address was touched and its count updated. */
    static lemma CarriesTouch(local: Db, db: Db, e: Effect, cfg: Config, b: Block, i: nat, addr: string, flag: int,
                              add: bool)
      requires Carries(local, db, e) && i < |b.txs| && addr != ""
      ensures CountIn(Slot(local, CountKey(addr))) == CountIn(Peek(db, e, CountKey(addr)))
      ensures var n := CountIn(Slot(local, CountKey(addr))) + (if add then 1 else -1);
              Carries(if cfg.dbVersion == 0 then local else local[CountKey(addr) := Count(n)], db,
                      Touch(cfg, db, e, b, i, addr, flag, add))
    {
      hide HeightIndex, CountIn;
      assert Slot(local, CountKey(addr)) == Peek(db, e, CountKey(addr));
    }

    /** One address of one transaction: two index entries and the count. */
    method TouchAddr(b: Block, i: nat, addr: string, flag: int, add: bool, kvs: seq<KV>, ghost db: Db)
      returns (kvs': seq<KV>)
      requires height == b.height && i < |b.txs| && Carries(localDB, db, Latest(kvs))
      modifies `localDB
      ensures Latest(kvs') == Touch(cfg, db, Latest(kvs), b, i, addr, flag, add) && Carries(localDB, db, Latest(kvs'))
    {
      hide HeightIndex, Carries, Latest, Peek, Slot;
      kvs' := kvs;
      if |addr| != 0 {
        CarriesTouch(localDB, db, Latest(kvs), cfg, b, i, addr, flag, add);
        var v := if add then Some(TxInfo(b.txs[i].hash, height, i)) else None;
        var key1 := DirKey(addr, flag, HeightIndex(b, i));
        var key2 := AddrKey(addr, HeightIndex(b, i));
        LatestPush(kvs', KV(key1, v));
        kvs' := kvs' + [KV(key1, v)];
        LatestPush(kvs', KV(key2, v));
        kvs' := kvs' + [KV(key2, v)];
        var kv := UpdateAddrTxsCount(addr, 1, add);
        if kv.Some? {
          LatestPush(kvs', kv.value);
          kvs' := kvs' + [kv.value];
        }
      }
    }

    method AddrExecLocal(b: Block) returns (kvs: seq<KV>)
      requires height == b.height
      modifies `localDB
      ensures Latest(kvs) == AddrEffect(cfg, old(localDB), b, |b.txs|, true)
      ensures forall k :: Owner(k) != Some(AddrIndex) ==> Slot(localDB, k) == Slot(old(localDB), k)
    {
      kvs := [];
      for i := 0 to |b.txs|
        invariant Latest(kvs) == AddrEffect(cfg, old(localDB), b, i, true)
        invariant Carries(localDB, old(localDB), Latest(kvs))
      {
        kvs := TouchAddr(b, i, b.txs[i].from, TX_INDEX_FROM, true, kvs, old(localDB));
        kvs := TouchAddr(b, i, b.txs[i].to, TX_INDEX_TO, true, kvs, old(localDB));
      }
    }

    method AddrExecDelLocal(b: Block) returns (kvs: seq<KV>)
      requires height == b.height
      modifies `localDB
      ensures Latest(kvs) == AddrEffect(cfg, old(localDB), b, |b.txs|, false)
      ensures forall k :: Owner(k) != Some(AddrIndex) ==> Slot(localDB, k) == Slot(old(localDB), k)
    {
      kvs := [];
      for i := 0 to |b.txs|
        invariant Latest(kvs) == AddrEffect(cfg, old(localDB), b, i, false)
        invariant Carries(localDB, old(localDB), Latest(kvs))
      {
        kvs := TouchAddr(b, i, b.txs[i].from, TX_INDEX_FROM, false, kvs, old(localDB));
        kvs := TouchAddr(b, i, b.txs[i].to, TX_INDEX_TO, false, kvs, old(localDB));
      }
    }

    method FeeExecLocal(b: Block) returns (kvs: seq<KV>)
      ensures Latest(kvs) == FeeEffect(localDB, b, true)
    {
      var fee, count := 0, 0;
      for i := 0 to |b.txs|
        invariant fee == FeesOf(b.txs[..i]) && count == i
      {
        assert b.txs[..i + 1][..i] == b.txs[..i];
        fee, count := fee + b.txs[i].fee, count + 1;
      }
      assert b.txs[..|b.txs|] == b.txs;
      var total := FeeIn(Slot(localDB, FeeKey(b.parentHash)));
      kvs := [KV(FeeKey(Digest(b)), Some(TotalFee(total.fee + fee, total.txCount + count)))];
    }

    method FeeExecDelLocal(b: Block) returns (kvs: seq<KV>)
      ensures Latest(kvs) == FeeEffect(localDB, b, false)
    {
      kvs := [KV(FeeKey(Digest(b)), None)];
    }

    /** Run one enabled plugin.  It reads its own keys only, and what it leaves in the local
        database is limited to its own keys too. */
    method ExecPlugin(p: Plugin, b: Block, add: bool, ghost db: Db) returns (kvs: seq<KV>)
      requires height == b.height && (p == AddrIndex ==> cfg.addrIndex)
      requires forall k :: Owner(k) == Some(p) ==> Slot(localDB, k) == Slot(db, k)
      modifies `localDB
      ensures Latest(kvs) == PluginEffect(cfg, db, b, p, add)
      ensures forall k :: Owner(k) != Some(p) ==> Slot(localDB, k) == Slot(old(localDB), k)
    {
      match p {
        case TxIndex =>
          if add { kvs := TxExecLocal(b); } else { kvs := TxExecDelLocal(b); }
        case AddrIndex =>
          AddrEffectReads(cfg, localDB, db, b, |b.txs|, add);
          if add { kvs := AddrExecLocal(b); } else { kvs := AddrExecDelLocal(b); }
        case FeeIndex =>
          assert Slot(localDB, FeeKey(b.parentHash)) == Slot(db, FeeKey(b.parentHash));
          if add { kvs := FeeExecLocal(b); } else { kvs := FeeExecDelLocal(b); }
      }
    }

    method SetAll(kvs: seq<KV>, ghost p: Plugin)
      requires forall k :: k in Latest(kvs) ==> Owner(k) == Some(p)
      modifies `localDB
      ensures forall k :: Owner(k) != Some(p) ==> Slot(localDB, k) == Slot(old(localDB), k)
    {
      for j := 0 to |kvs|
        invariant forall k :: Owner(k) != Some(p) ==> Slot(localDB, k) == Slot(old(localDB), k)
      {
        LatestHas(kvs, j);
        match kvs[j].value {
          case Some(v) => localDB := localDB[kvs[j].key := v];
          case None => localDB := localDB - {kvs[j].key};
        }
      }
    }

    /** The plugins come out of a Go map, so they run in any order; `others` is what the
        contracts of the block's transactions add. */
    method ProcExecAddBlock(order: seq<Plugin>, b: Block, others: seq<KV>) returns (kvs: seq<KV>)
      requires height == b.height && PluginOrder(order) && OthersOnly(others)
      modifies `localDB
      ensures SameEffect(Latest(kvs), BlockEffect(cfg, old(localDB), b, true))
      ensures SameOthers(Latest(kvs), Latest(others))
    {
      hide BlockEffect, PluginEffect, Latest;
      kvs := [];
      NothingDone(cfg, localDB, b, true);
      for n := 0 to |order|
        invariant Partial(cfg, old(localDB), b, true, order[..n], Latest(kvs))
        invariant UntouchedBut(old(localDB), localDB, order[..n])
      {
        assert order[..n + 1] == order[..n] + [order[n]];
        PartialPush(cfg, old(localDB), b, true, order[..n], Latest(kvs), order[n]);
        var skip := order[n] == AddrIndex && !cfg.addrIndex;
        if skip {
          PluginOff(cfg, old(localDB), b, true);
        } else {
          var kv := ExecPlugin(order[n], b, true, old(localDB));
          LatestJoin(kvs, kv);
          kvs := kvs + kv;
          PluginKeys(cfg, old(localDB), b, order[n], true);
          SetAll(kv, order[n]);
        }
      }
      assert order[..|order|] == order;
      LatestKeys(others);
      LatestJoin(kvs, others);
      PartialAll(cfg, old(localDB), b, true, order, Latest(kvs), Latest(others));
      kvs := kvs + others;
    }

    method ProcExecDelBlock(order: seq<Plugin>, b: Block, others: seq<KV>) returns (kvs: seq<KV>)
      requires height == b.height && PluginOrder(order) && OthersOnly(others)
      modifies `localDB
      ensures SameEffect(Latest(kvs), BlockEffect(cfg, old(localDB), b, false))
      ensures SameOthers(Latest(kvs), Latest(others))
    {
      hide BlockEffect, PluginEffect, Latest;
      kvs := [];
      NothingDone(cfg, localDB, b, false);
      for n := 0 to |order|
        invariant Partial(cfg, old(localDB), b, false, order[..n], Latest(kvs))
        invariant UntouchedBut(old(localDB), localDB, order[..n])
      {
        assert order[..n + 1] == order[..n] + [order[n]];
        PartialPush(cfg, old(localDB), b, false, order[..n], Latest(kvs), order[n]);
        var skip := order[n] == AddrIndex && !cfg.addrIndex;
        if skip {
          PluginOff(cfg, old(localDB), b, false);
        } else {
          var kv := ExecPlugin(order[n], b, false, old(localDB));
          LatestJoin(kvs, kv);
          kvs := kvs + kv;
        }
      }
      assert order[..|order|] == order;
      LatestKeys(others);
      LatestJoin(kvs, others);
      PartialAll(cfg, old(localDB), b, false, order, Latest(kvs), Latest(others));
      kvs := kvs + others;
    }
  }

  /** Every plugin once. */
  ghost predicate PluginOrder(order: seq<Plugin>) {
    (forall p: Plugin :: p in order) && (forall i, j :: 0 <= i < j < |order| ==> order[i] != order[j])
  }

  ghost predicate OthersOnly(kvs: seq<KV>) {
    forall i :: 0 <= i < |kvs| ==> kvs[i].key.Other?
  }

  ghost predicate UntouchedBut(db: Db, db': Db, done: seq<Plugin>) {
    forall k :: Owner(k).None? || Owner(k).value !in done ==> Slot(db', k) == Slot(db, k)
  }

  lemma NothingDone(cfg: Config, db: Db, b: Block, add: bool)
    ensures Partial(cfg, db, b, add, [], Latest([]))
  {
    hide BlockEffect;
  }

  lemma PluginOff(cfg: Config, db: Db, b: Block, add: bool)
    requires !cfg.addrIndex
    ensures forall e: Effect {:trigger e + PluginEffect(cfg, db, b, AddrIndex, add)} ::
              e + PluginEffect(cfg, db, b, AddrIndex, add) == e
  {
  }

  /** The database holds, at every plugin key, what the block's effect leaves there. */
  ghost predicate Written(db: Db, e: Effect, db': Db) {
    forall k: Key :: !k.Other? ==> Slot(db', k) == Peek(db, e, k)
  }

  class LocalStore {
    const cfg: Config
    var db: Db

    method WriteAll(kvs: seq<KV>)
      modifies this
      ensures forall k :: Slot(db, k) == Peek(old(db), Latest(kvs), k)
    {
      for i := 0 to |kvs|
        invariant forall k :: Slot(db, k) == Peek(old(db), Latest(kvs[..i]), k)
      {
        assert kvs[..i + 1] == kvs[..i] + [kvs[i]];
        LatestPush(kvs[..i], kvs[i]);
        ghost var was := db;
        match kvs[i].value {
          case None => db := db - {kvs[i].key};
          case Some(v) => db := db[kvs[i].key := v];
        }
        forall k
          ensures Slot(db, k) == Peek(old(db), Latest(kvs[..i + 1]), k)
        {
          assert Slot(was, k) == Peek(old(db), Latest(kvs[..i]), k);
        }
      }
      assert kvs[..|kvs|] == kvs;
    }

    method AddTxs(b: Block, order: seq<Plugin>, others: seq<KV>)
      requires PluginOrder(order) && OthersOnly(others)
      modifies this
      ensures Written(old(db), BlockEffect(cfg, old(db), b, true), db)
      ensures forall k: Key :: k.Other? ==> Slot(db, k) == Peek(old(db), Latest(others), k)
    {
      hide BlockEffect, Latest;
      var executor := new Executor(cfg, b.height, db);
      var kvs := executor.ProcExecAddBlock(order, b, others);
      WriteAll(kvs);
    }

    method DelTxs(b: Block, order: seq<Plugin>, others: seq<KV>)
      requires PluginOrder(order) && OthersOnly(others)
      modifies this
      ensures Written(old(db), BlockEffect(cfg, old(db), b, false), db)
      ensures forall k: Key :: k.Other? ==> Slot(db, k) == Peek(old(db), Latest(others), k)
    {
      hide BlockEffect, Latest;
      var executor := new Executor(cfg, b.height, db);
      var kvs := executor.ProcExecDelBlock(order, b, others);
      WriteAll(kvs);
    }
  }
}
